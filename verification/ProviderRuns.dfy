/**
 Provider calls for one commerce item, over any number of runs and crashes. The durable generation
 record is all that a later run knows; each provider call is preceded by writing the channel, the
 started flag and the idempotency flag into it.
 */
module ProviderRuns {
  import opened Foundations
  import opened ProviderErrors
  import opened Failover
  import Text

  datatype Flags = Flags(channel: nat, started: bool, idempotent: bool)

  /** `succeeded`: the status is succeeded and a work is attached. */
  datatype Record = Record(flags: Flags, succeeded: bool)

  datatype Answer = NoAnswer | Delivered | Rejected(error: ProviderError)

  /** A request that left for the provider, with the idempotency key it carried. */
  datatype Call = Call(channel: nat, key: Option<string>, answer: Answer)

  datatype Phase = Preparing | Marked | Waiting | Ended(success: bool)

  /** What the executor of the item holds in memory. */
  datatype Run = Run(
    candidates: seq<Candidate>, perCandidate: nat, position: nat, ordinal: nat, index: nat, flags: Flags, phase: Phase)

  datatype State = State(record: Option<Record>, run: Option<Run>, calls: seq<Call>)

  const INITIAL := State(None, None, [])

  /** The candidates found for one execution; with no channel it falls back on plain models. */
  datatype Job = Job(channels: seq<Candidate>, models: nat)

  datatype Marking = Written | WriteFailed(applied: bool)

  datatype Event =
    | Start(job: Job)
    | Mark(marking: Marking)
    | Invoke
    | Receive(answer: Answer, live: bool, booked: bool)
    | Save(success: bool)
    | Stop
    | Discard

  // ----- Starting a run -----

  function Candidates(job: Job): (c: seq<Candidate>)
    ensures c != []
  {
    if job.channels != [] then job.channels
    else seq(if job.models == 0 then 1 else job.models, i => Candidate(0, false))
  }

  /** The first candidate on `channel`, now trusted to be idempotent because the record says so. */
  function Narrowed(channels: seq<Candidate>, channel: nat): Option<Candidate> {
    if channels == [] then None
    else if channels[0].channel == channel then Some(Candidate(channel, true))
    else Narrowed(channels[1..], channel)
  }

  /** The candidates a run may use, if it may call a provider at all. */
  function Replayable(record: Record, job: Job): Option<seq<Candidate>> {
    if record.succeeded then None
    else if !record.flags.started then Some(Candidates(job))
    else if !record.flags.idempotent || record.flags.channel == 0 then None
    else match Narrowed(job.channels, record.flags.channel)
         case None => None
         case Some(c) => Some([c])
  }

  lemma {:induction false} NarrowedIff(channels: seq<Candidate>, channel: nat)
    ensures Narrowed(channels, channel) ==
            if exists c :: c in channels && c.channel == channel then Some(Candidate(channel, true)) else None
  {
    if channels != [] {
      NarrowedIff(channels[1..], channel);
      assert channels == [channels[0]] + channels[1..];
      assert forall c :: c in channels <==> c == channels[0] || c in channels[1..];
    }
  }

  /** A job whose candidate list is narrowed in place when an earlier run has already called a provider. */
  class GenerationJob {
    var channels: seq<Candidate>
    var models: nat

    constructor (channels: seq<Candidate>, models: nat)
      ensures this.channels == channels && this.models == models
    {
      this.channels := channels;
      this.models := models;
    }

    method CommerceReplaySafe(record: Record) returns (safe: bool)
      modifies `channels
      ensures var allowed := Replayable(record, Job(old(channels), models));
              && safe == (record.succeeded || allowed.Some?)
              && (allowed.Some? ==> Candidates(Job(channels, models)) == allowed.value)
      ensures !safe || record.succeeded || !record.flags.started ==> channels == old(channels)
    {
      if record.succeeded {
        return true;
      }
      if !record.flags.started {
        return true;
      }
      if !record.flags.idempotent || record.flags.channel == 0 {
        return false;
      }
      for i := 0 to |channels|
        invariant channels == old(channels)
        invariant Narrowed(channels, record.flags.channel) == Narrowed(channels[i..], record.flags.channel)
      {
        if channels[i].channel == record.flags.channel {
          channels := [channels[i].(idempotent := true)];
          return true;
        }
      }
      return false;
    }
  }

  // ----- One step -----

  function CandidateFlags(c: Candidate): Flags {
    Flags(c.channel, true, c.idempotent)
  }

  function CallKey(executionKey: string, c: Candidate): Option<string> {
    if c.idempotent then Some(executionKey + ":channel-" + Text.Digits(c.channel)) else None
  }

  /** The run after an answer was booked, until the next call or the verdict. */
  function AfterAnswer(r: Run, answer: Answer, live: bool): Run
    requires r.position < |r.candidates|
  {
    match answer
    case NoAnswer => r
    case Delivered => r.(phase := Ended(true), flags := r.flags.(channel := r.candidates[r.position].channel))
    case Rejected(e) =>
      var next := r.position + 1;
      match AfterFailure(true, r.candidates[r.position].idempotent, r.ordinal, r.perCandidate, live, e)
      case RetrySame =>
        if r.index >= MAX_EXTERNAL_ATTEMPTS then r.(phase := Ended(false))
        else r.(phase := Preparing, ordinal := r.ordinal + 1, index := r.index + 1)
      case NextCandidate =>
        if next >= |r.candidates| then r.(phase := Ended(false))
        else if r.index >= MAX_EXTERNAL_ATTEMPTS then
          r.(phase := Ended(false), flags := r.flags.(channel := r.candidates[next].channel))
        else r.(phase := Preparing, position := next, ordinal := 1, index := r.index + 1)
      case _ => r.(phase := Ended(false))
  }

  function Begin(record: Record, job: Job): Option<Run> {
    match Replayable(record, job)
    case None => None
    case Some(candidates) =>
      Some(Run(candidates, if job.channels != [] then MAX_CHANNEL_ATTEMPTS else 1, 0, 1, 1, record.flags, Preparing))
  }

  /** An event that cannot happen in a state leaves the state as it is. */
  function Step(executionKey: string, s: State, e: Event): State {
    match e
    case Start(job) =>
      if s.run.Some? then s
      else
        var record := if s.record.None? then Record(Flags(0, false, false), false) else s.record.value;
        s.(record := Some(record), run := Begin(record, job))
    case Stop => s.(run := None)
    case Discard =>
      if s.record.None? then s else s.(record := Some(s.record.value.(succeeded := false)))
    case _ =>
      if s.run.None? || s.record.None? || s.run.value.position >= |s.run.value.candidates| then s
      else Proceed(executionKey, s, s.record.value, s.run.value, e)
  }

  function Proceed(executionKey: string, s: State, record: Record, r: Run, e: Event): State
    requires r.position < |r.candidates|
  {
    var c := r.candidates[r.position];
    match e
    case Mark(marking) =>
      if r.phase != Preparing then s
      else
        var marked := Some(record.(flags := CandidateFlags(c)));
        (match marking
         case Written => s.(record := marked, run := Some(r.(flags := CandidateFlags(c), phase := Marked)))
         case WriteFailed(applied) => s.(record := if applied then marked else s.record, run := None))
    case Invoke =>
      if r.phase != Marked then s
      else s.(calls := s.calls + [Call(c.channel, CallKey(executionKey, c), NoAnswer)],
              run := Some(r.(phase := Waiting)))
    case Receive(answer, live, booked) =>
      if r.phase != Waiting || s.calls == [] || answer == NoAnswer then s
      else
        var last := |s.calls| - 1;
        s.(calls := s.calls[last := s.calls[last].(answer := answer)],
           run := if booked then Some(AfterAnswer(r, answer, live)) else None)
    case Save(success) =>
      if r.phase.Ended? || (r.phase == Preparing && r.index == 1) then
        s.(record := Some(Record(r.flags, success && r.phase == Ended(true))))
      else s
    case _ => s
  }

  function Steps(executionKey: string, s: State, events: seq<Event>): State
    decreases |events|
  {
    if events == [] then s
    else Step(executionKey, Steps(executionKey, s, events[..|events| - 1]), events[|events| - 1])
  }

  lemma {:induction false} StepsConcat(executionKey: string, s: State, a: seq<Event>, b: seq<Event>)
    ensures Steps(executionKey, s, a + b) == Steps(executionKey, Steps(executionKey, s, a), b)
    decreases |b|
  {
    if b == [] {
      assert a + b == a;
    } else {
      assert (a + b)[..|a + b| - 1] == a + b[..|b| - 1];
      StepsConcat(executionKey, s, a, b[..|b| - 1]);
    }
  }

  // ----- What every reachable state keeps -----

  /** It is known that the call had no effect, or repeating it under its key has none. */
  predicate MayBeFollowed(c: Call) {
    c.key.Some? || (c.answer.Rejected? && !Ambiguous(c.answer.error))
  }

  predicate LastMayBeFollowed(calls: seq<Call>) {
    calls == [] || MayBeFollowed(calls[|calls| - 1])
  }

  /** Only the last call can be one that must not be followed. */
  ghost predicate AtMostOneOpenCall(calls: seq<Call>) {
    forall i :: 0 <= i < |calls| - 1 ==> MayBeFollowed(calls[i])
  }

  /** Flags under which a later run cannot make a call that it must not make. */
  predicate Guarded(flags: Flags, calls: seq<Call>) {
    && (calls != [] ==> flags.started)
    && (flags.idempotent ==> LastMayBeFollowed(calls))
  }

  predicate RunSound(record: Record, r: Run, calls: seq<Call>) {
    && r.position < |r.candidates|
    && Guarded(r.flags, calls)
    && (r.phase == Preparing ==> LastMayBeFollowed(calls))
    && (r.phase == Preparing && r.index == 1 ==> r.flags == record.flags)
    && (r.phase == Marked ==>
          LastMayBeFollowed(calls) && r.flags == record.flags == CandidateFlags(r.candidates[r.position]))
    && (r.phase == Waiting ==>
          && r.flags == record.flags == CandidateFlags(r.candidates[r.position])
          && calls != [] && calls[|calls| - 1].channel == r.candidates[r.position].channel
          && calls[|calls| - 1].key.Some? == r.candidates[r.position].idempotent)
  }

  ghost predicate Sound(s: State) {
    && AtMostOneOpenCall(s.calls)
    && (s.record.None? ==> s.run.None? && s.calls == [])
    && (s.record.Some? ==> Guarded(s.record.value.flags, s.calls))
    && (s.run.Some? ==> s.record.Some? && RunSound(s.record.value, s.run.value, s.calls))
  }

  lemma StepKeepsSound(executionKey: string, s: State, e: Event)
    requires Sound(s)
    ensures Sound(Step(executionKey, s, e))
  {
  }

  lemma {:induction false} StepsKeepSound(executionKey: string, s: State, events: seq<Event>)
    requires Sound(s)
    ensures Sound(Steps(executionKey, s, events))
    decreases |events|
  {
    if events != [] {
      StepsKeepSound(executionKey, s, events[..|events| - 1]);
      StepKeepsSound(executionKey, Steps(executionKey, s, events[..|events| - 1]), events[|events| - 1]);
    }
  }

  /**
   Over any number of runs, failures and crashes: a call sent without a key that succeeded, never
   returned or failed ambiguously is the last call ever made for the item.
   */
  lemma UnsafeCallIsTheLast(executionKey: string, events: seq<Event>)
    ensures var calls := Steps(executionKey, INITIAL, events).calls;
            forall i :: 0 <= i < |calls| - 1 && calls[i].key == None ==>
              calls[i].answer.Rejected? && !Ambiguous(calls[i].answer.error)
  {
    StepsKeepSound(executionKey, INITIAL, events);
    var calls := Steps(executionKey, INITIAL, events).calls;
    forall i | 0 <= i < |calls| - 1 && calls[i].key == None
      ensures calls[i].answer.Rejected? && !Ambiguous(calls[i].answer.error)
    {
      assert MayBeFollowed(calls[i]);
    }
  }

  /** A call leaves only once the durable record names its channel, and with a key exactly when the record says so. */
  lemma CallsAreRecordedFirst(executionKey: string, events: seq<Event>, e: Event)
    ensures var s := Steps(executionKey, INITIAL, events);
            var u := Step(executionKey, s, e);
            |u.calls| != |s.calls| ==>
              && s.record.Some? && s.record.value.flags.started
              && var f := s.record.value.flags;
                 u.calls == s.calls + [Call(
                   f.channel, if f.idempotent then Some(executionKey + ":channel-" + Text.Digits(f.channel)) else None,
                   NoAnswer)]
  {
    StepsKeepSound(executionKey, INITIAL, events);
  }

  /** When a run may start at all, and with which candidates. */
  lemma StartEffect(executionKey: string, s: State, job: Job)
    requires s.run.None?
    ensures var u := Step(executionKey, s, Start(job));
            var f := if s.record.Some? then s.record.value.flags else Flags(0, false, false);
            && (u.run.Some? <==>
                  && !(s.record.Some? && s.record.value.succeeded)
                  && (f.started ==> f.idempotent && f.channel != 0
                                    && exists c :: c in job.channels && c.channel == f.channel))
            && u.record == Some(if s.record.Some? then s.record.value else Record(f, false)) && u.calls == s.calls
            && (u.run.Some? ==>
                  var r := u.run.value;
                  && r.position == 0 && r.ordinal == 1 && r.index == 1 && r.flags == f && r.phase == Preparing
                  && r.perCandidate == (if job.channels != [] then 2 else 1)
                  && (f.started ==> r.candidates == [Candidate(f.channel, true)])
                  && (!f.started && job.channels != [] ==> r.candidates == job.channels)
                  && (!f.started && job.channels == [] ==>
                        |r.candidates| == (if job.models == 0 then 1 else job.models)
                        && forall c :: c in r.candidates ==> c == Candidate(0, false)))
  {
    if s.record.Some? {
      NarrowedIff(job.channels, s.record.value.flags.channel);
    }
  }

  // ----- Resuming -----

  /** A record that was started once keeps every later run on its channel, or keeps it from calling at all. */
  predicate Confined(s: State, flags: Flags) {
    && s.record.Some? && s.record.value.flags == flags && flags.started
    && (s.run.Some? ==>
          flags.idempotent && flags.channel != 0 && s.run.value.candidates == [Candidate(flags.channel, true)]
          && s.run.value.position == 0 && s.run.value.flags == flags)
  }

  lemma StepStaysConfined(executionKey: string, s: State, flags: Flags, e: Event)
    requires Confined(s, flags)
    ensures var u := Step(executionKey, s, e);
            && Confined(u, flags)
            && |s.calls| <= |u.calls| <= |s.calls| + 1
            && (|u.calls| > |s.calls| ==>
                  flags.idempotent && flags.channel != 0
                  && u.calls[|s.calls|] ==
                     Call(flags.channel, Some(executionKey + ":channel-" + Text.Digits(flags.channel)), NoAnswer))
            && (forall i :: 0 <= i < |s.calls| ==> u.calls[i].(answer := NoAnswer) == s.calls[i].(answer := NoAnswer))
  {
    if e.Start? && s.run.None? {
      NarrowedIff(e.job.channels, flags.channel);
    }
  }

  /**
   Once a call may have been made, every later run repeats it on the recorded channel under the
   identical key, and only if that channel was recorded as idempotent; otherwise no call follows.
   */
  lemma {:induction false} ResumedCallsRepeatTheRecordedOne(executionKey: string, s: State, events: seq<Event>)
    requires s.run.None? && s.record.Some? && s.record.value.flags.started
    ensures var u, flags := Steps(executionKey, s, events), s.record.value.flags;
            && Confined(u, flags) && |u.calls| >= |s.calls|
            && (forall i :: 0 <= i < |s.calls| ==>
                  u.calls[i].channel == s.calls[i].channel && u.calls[i].key == s.calls[i].key)
            && (forall i :: |s.calls| <= i < |u.calls| ==>
                  u.calls[i].channel == flags.channel
                  && u.calls[i].key == Some(executionKey + ":channel-" + Text.Digits(flags.channel)))
            && (!flags.idempotent || flags.channel == 0 ==> |u.calls| == |s.calls|)
    decreases |events|
  {
    if events != [] {
      var before := events[..|events| - 1];
      ResumedCallsRepeatTheRecordedOne(executionKey, s, before);
      var t, flags, u := Steps(executionKey, s, before), s.record.value.flags, Steps(executionKey, s, events);
      StepStaysConfined(executionKey, t, flags, events[|events| - 1]);
      forall i | 0 <= i < |t.calls|
        ensures u.calls[i].channel == t.calls[i].channel && u.calls[i].key == t.calls[i].key
      {
        assert u.calls[i].(answer := NoAnswer) == t.calls[i].(answer := NoAnswer);
      }
    }
  }

  /** Every key is the execution key, a separator and the digits of the channel called. */
  ghost predicate KeysNameTheirChannel(executionKey: string, calls: seq<Call>) {
    forall i :: 0 <= i < |calls| && calls[i].key.Some? ==>
      calls[i].key.value == executionKey + ":channel-" + Text.Digits(calls[i].channel)
  }

  lemma {:induction false} KeysAlwaysNameTheirChannel(executionKey: string, events: seq<Event>)
    ensures KeysNameTheirChannel(executionKey, Steps(executionKey, INITIAL, events).calls)
    decreases |events|
  {
    if events != [] {
      KeysAlwaysNameTheirChannel(executionKey, events[..|events| - 1]);
    }
  }

  /** Equal keys come from the same execution key and the same channel, whatever happened in either history. */
  lemma EqualKeysAreTheSameRequest(k: string, events: seq<Event>, i: nat, l: string, others: seq<Event>, j: nat)
    requires var a, b := Steps(k, INITIAL, events).calls, Steps(l, INITIAL, others).calls;
             i < |a| && j < |b| && a[i].key.Some? && a[i].key == b[j].key
    ensures k == l && Steps(k, INITIAL, events).calls[i].channel == Steps(l, INITIAL, others).calls[j].channel
  {
    KeysAlwaysNameTheirChannel(k, events);
    KeysAlwaysNameTheirChannel(l, others);
    var a, b := Steps(k, INITIAL, events).calls[i], Steps(l, INITIAL, others).calls[j];
    Text.SeparatedDigits(k, a.channel, l, b.channel, ":channel-");
  }

  /** The execution key of an item. */
  function ItemKey(item: nat): string {
    "commerce:item:" + Text.Digits(item)
  }

  /** So no two items share one. */
  lemma ItemsNeverShareAKey(item: nat, events: seq<Event>, i: nat, other: nat, others: seq<Event>, j: nat)
    requires var a, b := Steps(ItemKey(item), INITIAL, events).calls, Steps(ItemKey(other), INITIAL, others).calls;
             i < |a| && j < |b| && a[i].key.Some? && a[i].key == b[j].key
    ensures item == other
  {
    EqualKeysAreTheSameRequest(ItemKey(item), events, i, ItemKey(other), others, j);
    assert "" + "commerce:item:" + Text.Digits(item) == ItemKey(item);
    assert "" + "commerce:item:" + Text.Digits(other) == ItemKey(other);
    Text.SeparatedDigits("", item, "", other, "commerce:item:");
  }

  /**
   A run that stops after a call left and before its answer was handled: later runs call only that
   channel with the identical key, and nothing at all when the call carried no key.
   */
  lemma CrashWhileWaiting(executionKey: string, before: seq<Event>, after: seq<Event>)
    requires var s := Steps(executionKey, INITIAL, before); s.run.Some? && s.run.value.phase == Waiting
    ensures var s := Steps(executionKey, INITIAL, before);
            var u := Steps(executionKey, Step(executionKey, s, Stop), after);
            && 0 < |s.calls| <= |u.calls|
            && var open := s.calls[|s.calls| - 1];
               forall i :: |s.calls| <= i < |u.calls| ==>
                 u.calls[i].channel == open.channel && u.calls[i].key == open.key && open.key.Some?
  {
    StepsKeepSound(executionKey, INITIAL, before);
    KeysAlwaysNameTheirChannel(executionKey, before);
    var s := Steps(executionKey, INITIAL, before);
    ResumedCallsRepeatTheRecordedOne(executionKey, Step(executionKey, s, Stop), after);
  }

  // ----- When the recorded flag can be wrong -----

  /** The candidates offered to a run carry the flag their channel really has. */
  ghost predicate Declares(supports: nat -> bool, e: Event) {
    e.Start? ==> forall c :: c in e.job.channels ==> c.idempotent == supports(c.channel)
  }

  /** Whatever is treated as idempotent really is. Plain models are channel 0 and never are. */
  ghost predicate Honest(supports: nat -> bool, s: State) {
    && (s.record.Some? ==> HonestFlags(supports, s.record.value.flags))
    && (s.run.Some? ==>
          && HonestFlags(supports, s.run.value.flags)
          && (forall c :: c in s.run.value.candidates ==> c.idempotent ==> supports(c.channel)))
    && HonestCalls(supports, s.calls)
  }

  /** Channel 0 stands for no channel: a record that names it is never replayed. */
  predicate HonestFlags(supports: nat -> bool, flags: Flags) {
    flags.idempotent && flags.channel != 0 ==> supports(flags.channel)
  }

  ghost predicate HonestCalls(supports: nat -> bool, calls: seq<Call>) {
    forall i :: 0 <= i < |calls| ==> calls[i].key.Some? ==> supports(calls[i].channel)
  }

  /** On a channel without idempotency support, a call that may have had an effect is the last one. */
  ghost predicate AtMostOnce(supports: nat -> bool, calls: seq<Call>) {
    forall i :: 0 <= i < |calls| - 1 && !supports(calls[i].channel) ==>
      calls[i].answer.Rejected? && !Ambiguous(calls[i].answer.error)
  }

  lemma HonestCallsHappenAtMostOnce(supports: nat -> bool, s: State)
    requires Sound(s) && HonestCalls(supports, s.calls)
    ensures AtMostOnce(supports, s.calls)
  {
    forall i | 0 <= i < |s.calls| - 1 && !supports(s.calls[i].channel)
      ensures s.calls[i].answer.Rejected? && !Ambiguous(s.calls[i].answer.error)
    {
      assert MayBeFollowed(s.calls[i]);
    }
  }

  /** The cap ends a run on the way from an idempotent channel to one that is not. */
  predicate CutOffOntoUnsupported(supports: nat -> bool, s: State, e: Event) {
    && e.Receive? && e.answer.Rejected? && e.booked
    && s.record.Some? && s.calls != [] && s.run.Some? && s.run.value.phase == Waiting
    && var r := s.run.value;
       && r.index >= MAX_EXTERNAL_ATTEMPTS && r.position + 1 < |r.candidates|
       && var c, next := r.candidates[r.position], r.candidates[r.position + 1];
          && AfterFailure(true, c.idempotent, r.ordinal, r.perCandidate, e.live, e.answer.error) == NextCandidate
          && c.idempotent && next.channel != 0 && !supports(next.channel)
  }

  /** The flags stop being honest at exactly one place: where a cut-off run names a channel it never called. */
  lemma HonestyIsLostIff(executionKey: string, supports: nat -> bool, s: State, e: Event)
    requires Sound(s) && Honest(supports, s) && Declares(supports, e)
    ensures Honest(supports, Step(executionKey, s, e)) <==> !CutOffOntoUnsupported(supports, s, e)
  {
    if e.Start? && s.run.None? && s.record.Some? {
      NarrowedIff(e.job.channels, s.record.value.flags.channel);
    }
    if e.Receive? && s.run.Some? && s.run.value.phase == Waiting {
      assert s.calls[|s.calls| - 1].key.Some? ==> supports(s.calls[|s.calls| - 1].channel);
    }
  }

  /** No event of the history is such a cut-off. */
  ghost predicate NeverCutOff(executionKey: string, supports: nat -> bool, events: seq<Event>) {
    forall n :: 0 <= n < |events| ==>
      && Declares(supports, events[n])
      && !CutOffOntoUnsupported(supports, Steps(executionKey, INITIAL, events[..n]), events[n])
  }

  lemma {:induction false} StaysHonest(executionKey: string, supports: nat -> bool, events: seq<Event>)
    requires NeverCutOff(executionKey, supports, events)
    ensures Honest(supports, Steps(executionKey, INITIAL, events))
    decreases |events|
  {
    if events != [] {
      var n := |events| - 1;
      var before := events[..n];
      forall k | 0 <= k < n
        ensures Declares(supports, before[k])
                && !CutOffOntoUnsupported(supports, Steps(executionKey, INITIAL, before[..k]), before[k])
      {
        assert before[k] == events[k] && before[..k] == events[..k];
      }
      StaysHonest(executionKey, supports, before);
      StepsKeepSound(executionKey, INITIAL, before);
      HonestyIsLostIff(executionKey, supports, Steps(executionKey, INITIAL, before), events[n]);
    }
  }

  /** Without such a cut-off the guarantee is about the channels themselves. */
  lemma UnsupportedCallIsTheLast(executionKey: string, supports: nat -> bool, events: seq<Event>)
    requires NeverCutOff(executionKey, supports, events)
    ensures AtMostOnce(supports, Steps(executionKey, INITIAL, events).calls)
  {
    StepsKeepSound(executionKey, INITIAL, events);
    StaysHonest(executionKey, supports, events);
    HonestCallsHappenAtMostOnce(supports, Steps(executionKey, INITIAL, events));
  }

  // ----- A wrong flag repeats a call -----

  const RESUME_AND_CRASH: seq<Event> := [Mark(Written), Invoke, Stop]

  lemma ResumeCalls(executionKey: string, s: State, job: Job)
    requires s.run.None? && s.record.Some? && !s.record.value.succeeded
    requires var flags := s.record.value.flags;
             && flags.started && flags.idempotent && flags.channel != 0
             && exists c :: c in job.channels && c.channel == flags.channel
    ensures var u, channel := Steps(executionKey, s, [Start(job)] + RESUME_AND_CRASH), s.record.value.flags.channel;
            && u.run.None? && u.record == s.record
            && u.calls == s.calls + [Call(channel, CallKey(executionKey, Candidate(channel, true)), NoAnswer)]
  {
    var channel := s.record.value.flags.channel;
    NarrowedIff(job.channels, channel);
    var events := [Start(job)] + RESUME_AND_CRASH;
    var s1 := Step(executionKey, s, events[0]);
    var s2 := Step(executionKey, s1, events[1]);
    var s3 := Step(executionKey, s2, events[2]);
    assert events[..0] == [] && events[..1][..0] == [];
    assert events[..2][..1] == events[..1] && events[..3][..2] == events[..2];
    assert events[..|events| - 1] == events[..3];
    assert Steps(executionKey, s, events[..1]) == s1;
    assert Steps(executionKey, s, events[..2]) == s2;
    assert Steps(executionKey, s, events[..3]) == s3;
  }

  /**
   Once the flags are wrong the guarantee is gone: from any state whose record claims idempotency for
   a channel that lacks it, two crashes are enough to leave two open calls on that channel.
   */
  lemma WrongFlagRepeatsTheCall(executionKey: string, supports: nat -> bool, s: State, job: Job)
    requires s.run.None? && s.record.Some? && !s.record.value.succeeded
    requires !HonestFlags(supports, s.record.value.flags) && s.record.value.flags.started
    requires exists c :: c in job.channels && c.channel == s.record.value.flags.channel
    ensures var events := [Start(job)] + RESUME_AND_CRASH;
            var u := Steps(executionKey, Steps(executionKey, s, events), events);
            && |u.calls| == |s.calls| + 2
            && !supports(u.calls[|s.calls|].channel)
            && u.calls[|s.calls|].answer == NoAnswer
            && !AtMostOnce(supports, u.calls)
  {
    ResumeCalls(executionKey, s, job);
    ResumeCalls(executionKey, Steps(executionKey, s, [Start(job)] + RESUME_AND_CRASH), job);
  }

  ghost predicate HonestHistory(supports: nat -> bool, events: seq<Event>) {
    forall e :: e in events ==> Declares(supports, e)
  }

  /** Whatever truthful candidates later runs are offered, the guarantee stays. */
  ghost predicate StaysAtMostOnce(executionKey: string, supports: nat -> bool, s: State) {
    forall events: seq<Event> :: HonestHistory(supports, events) ==>
      AtMostOnce(supports, Steps(executionKey, s, events).calls)
  }

  lemma HonestFlagsKeepGuarantee(executionKey: string, supports: nat -> bool, s: State, events: seq<Event>)
    requires Sound(s) && s.run.None? && s.record.Some? && s.record.value.flags.started
    requires HonestCalls(supports, s.calls) && HonestFlags(supports, s.record.value.flags)
    ensures AtMostOnce(supports, Steps(executionKey, s, events).calls)
  {
    var u := Steps(executionKey, s, events);
    StepsKeepSound(executionKey, s, events);
    ResumedCallsRepeatTheRecordedOne(executionKey, s, events);
    forall i | 0 <= i < |u.calls| && u.calls[i].key.Some? ensures supports(u.calls[i].channel) {
      if i < |s.calls| {
        assert s.calls[i].key == u.calls[i].key;
      }
    }
    HonestCallsHappenAtMostOnce(supports, u);
  }

  /** Twice a truthful offer of the recorded channel and a crash. */
  function BreakingEvents(channel: nat): seq<Event> {
    var resume := [Start(Job([Candidate(channel, false)], 0))] + RESUME_AND_CRASH;
    resume + resume
  }

  lemma WrongFlagBreaksGuarantee(executionKey: string, supports: nat -> bool, s: State)
    requires s.run.None? && s.record.Some? && s.record.value.flags.started && !s.record.value.succeeded
    requires !HonestFlags(supports, s.record.value.flags)
    ensures var events := BreakingEvents(s.record.value.flags.channel);
            HonestHistory(supports, events) && !AtMostOnce(supports, Steps(executionKey, s, events).calls)
  {
    var channel := s.record.value.flags.channel;
    var job := Job([Candidate(channel, false)], 0);
    var resume := [Start(job)] + RESUME_AND_CRASH;
    StepsConcat(executionKey, s, resume, resume);
    assert job.channels[0] in job.channels;
    WrongFlagRepeatsTheCall(executionKey, supports, s, job);
  }

  /** A succeeded record is never replayed, so without a discard no call follows it. */
  lemma {:induction false} SucceededStaysQuiet(executionKey: string, s: State, events: seq<Event>)
    requires s.run.None? && s.record.Some? && s.record.value.succeeded && Discard !in events
    ensures Steps(executionKey, s, events) == s
    decreases |events|
  {
    if events != [] {
      SucceededStaysQuiet(executionKey, s, events[..|events| - 1]);
      assert events[|events| - 1] in events;
    }
  }

  lemma DeliveredIsSaved(executionKey: string, s: State, live: bool)
    requires Sound(s) && s.run.Some? && s.run.value.phase == Waiting
    ensures var u := Steps(executionKey, s, [Receive(Delivered, live, true), Save(true), Stop]);
            var last := |s.calls| - 1;
            && last >= 0 && u.calls == s.calls[last := s.calls[last].(answer := Delivered)] && u.run == None
            && u.record == Some(Record(Flags(s.calls[last].channel, true, s.calls[last].key.Some?), true))
  {
    var events := [Receive(Delivered, live, true), Save(true), Stop];
    assert events[..2][..1] == events[..1] && events[..1][..0] == [] && events[..3] == events;
    var received := Step(executionKey, s, events[0]);
    assert Steps(executionKey, s, events[..1]) == received;
    assert Steps(executionKey, s, events[..2]) == Step(executionKey, received, events[1]);
  }

  /** A result that was delivered and saved is final: unless it is discarded, nothing is ever called again. */
  lemma DeliveredIsNeverRepeated(executionKey: string, before: seq<Event>, live: bool, after: seq<Event>)
    requires var s := Steps(executionKey, INITIAL, before); s.run.Some? && s.run.value.phase == Waiting
    requires Discard !in after
    ensures var s := Steps(executionKey, INITIAL, before);
            var u := Steps(executionKey, s, [Receive(Delivered, live, true), Save(true), Stop] + after);
            var last := |s.calls| - 1;
            && last >= 0 && u.calls == s.calls[last := s.calls[last].(answer := Delivered)]
            && u.record == Some(Record(Flags(s.calls[last].channel, true, s.calls[last].key.Some?), true))
  {
    var s, saved := Steps(executionKey, INITIAL, before), [Receive(Delivered, live, true), Save(true), Stop];
    StepsKeepSound(executionKey, INITIAL, before);
    DeliveredIsSaved(executionKey, s, live);
    StepsConcat(executionKey, s, saved, after);
    SucceededStaysQuiet(executionKey, Steps(executionKey, s, saved), after);
  }

  lemma BreakingAfterDiscard(executionKey: string, supports: nat -> bool, s: State)
    requires s.run.None? && s.record.Some? && s.record.value.flags.started
    requires !HonestFlags(supports, s.record.value.flags)
    ensures var events := [Discard] + BreakingEvents(s.record.value.flags.channel);
            HonestHistory(supports, events) && !AtMostOnce(supports, Steps(executionKey, s, events).calls)
  {
    var channel := s.record.value.flags.channel;
    StepsConcat(executionKey, s, [Discard], BreakingEvents(channel));
    assert [Discard][..0] == [];
    assert Steps(executionKey, s, [Discard]) == Step(executionKey, s, Discard);
    WrongFlagBreaksGuarantee(executionKey, supports, Step(executionKey, s, Discard));
  }

  /**
   Once a call may have been made, the guarantee is safe for good if and only if the record is honest.
   For a succeeded record the counterexample starts with a discarded late result. The program closes
   the item's job together with that, so that it does not come to the new start.
   */
  lemma GuaranteeHoldsIff(executionKey: string, supports: nat -> bool, s: State)
    requires Sound(s) && s.run.None? && s.record.Some? && s.record.value.flags.started && HonestCalls(supports, s.calls)
    ensures StaysAtMostOnce(executionKey, supports, s) <==> HonestFlags(supports, s.record.value.flags)
  {
    if HonestFlags(supports, s.record.value.flags) {
      forall events: seq<Event> | HonestHistory(supports, events)
        ensures AtMostOnce(supports, Steps(executionKey, s, events).calls)
      {
        HonestFlagsKeepGuarantee(executionKey, supports, s, events);
      }
    } else {
      BreakingAfterDiscard(executionKey, supports, s);
    }
  }

  /** The same over histories in which no result is discarded. */
  ghost predicate StaysAtMostOnceUndiscarded(executionKey: string, supports: nat -> bool, s: State) {
    forall events: seq<Event> :: HonestHistory(supports, events) && Discard !in events ==>
      AtMostOnce(supports, Steps(executionKey, s, events).calls)
  }

  /** Over those a succeeded record is as good as an honest one. */
  lemma UndiscardedGuaranteeHoldsIff(executionKey: string, supports: nat -> bool, s: State)
    requires Sound(s) && s.run.None? && s.record.Some? && s.record.value.flags.started && HonestCalls(supports, s.calls)
    ensures StaysAtMostOnceUndiscarded(executionKey, supports, s) <==>
            s.record.value.succeeded || HonestFlags(supports, s.record.value.flags)
  {
    if s.record.value.succeeded || HonestFlags(supports, s.record.value.flags) {
      forall events: seq<Event> | HonestHistory(supports, events) && Discard !in events
        ensures AtMostOnce(supports, Steps(executionKey, s, events).calls)
      {
        if s.record.value.succeeded {
          SucceededStaysQuiet(executionKey, s, events);
          HonestCallsHappenAtMostOnce(supports, s);
        } else {
          HonestFlagsKeepGuarantee(executionKey, supports, s, events);
        }
      }
    } else {
      WrongFlagBreaksGuarantee(executionKey, supports, s);
    }
  }

  // ----- Which candidate lists are dangerous -----

  /**
   With three calls in all and two on a channel, the cap falls at the second or third candidate:
   dangerous is a list with idempotency support there and none at the channel right behind.
   */
  predicate Dangerous(channels: seq<Candidate>) {
    DangerousAt(channels, 1) || DangerousAt(channels, 2)
  }

  predicate DangerousAt(channels: seq<Candidate>, p: nat) {
    p + 1 < |channels| && channels[p].idempotent && !channels[p + 1].idempotent && channels[p + 1].channel != 0
  }

  /** How far a run can have come after `index` calls. */
  predicate Paced(r: Run) {
    && 1 <= r.ordinal <= r.perCandidate <= MAX_CHANNEL_ATTEMPTS
    && r.position + r.ordinal <= r.index <= 2 * r.position + r.ordinal
    && r.index <= MAX_EXTERNAL_ATTEMPTS
  }

  ghost predicate SafeEvent(supports: nat -> bool, e: Event) {
    Declares(supports, e) && (e.Start? ==> !Dangerous(e.job.channels))
  }

  predicate SafeRun(s: State) {
    s.run.Some? ==> Paced(s.run.value) && !Dangerous(s.run.value.candidates)
  }

  lemma SafeRunIsNotCutOff(supports: nat -> bool, s: State, e: Event)
    requires Honest(supports, s) && SafeRun(s)
    ensures !CutOffOntoUnsupported(supports, s, e)
  {
    assert s.run.Some? ==> !DangerousAt(s.run.value.candidates, 1) && !DangerousAt(s.run.value.candidates, 2);
  }

  lemma SafeRunStaysSafe(executionKey: string, supports: nat -> bool, s: State, e: Event)
    requires SafeRun(s) && SafeEvent(supports, e)
    ensures SafeRun(Step(executionKey, s, e))
  {
  }

  lemma SafeStep(executionKey: string, supports: nat -> bool, s: State, e: Event)
    requires Sound(s) && Honest(supports, s) && SafeRun(s) && SafeEvent(supports, e)
    ensures Honest(supports, Step(executionKey, s, e)) && SafeRun(Step(executionKey, s, e))
  {
    SafeRunIsNotCutOff(supports, s, e);
    SafeRunStaysSafe(executionKey, supports, s, e);
    HonestyIsLostIff(executionKey, supports, s, e);
  }

  lemma {:induction false} SafeStepsStayHonest(executionKey: string, supports: nat -> bool, events: seq<Event>)
    requires forall e :: e in events ==> SafeEvent(supports, e)
    ensures var s := Steps(executionKey, INITIAL, events); Sound(s) && Honest(supports, s) && SafeRun(s)
    decreases |events|
  {
    if events != [] {
      var before, last := events[..|events| - 1], events[|events| - 1];
      SafeStepsStayHonest(executionKey, supports, before);
      assert last in events;
      SafeStep(executionKey, supports, Steps(executionKey, INITIAL, before), last);
      StepKeepsSound(executionKey, Steps(executionKey, INITIAL, before), last);
    }
  }

  /** Candidate lists that are truthful and not dangerous keep the guarantee over every history. */
  lemma SafeListsKeepGuarantee(executionKey: string, supports: nat -> bool, events: seq<Event>)
    requires forall e :: e in events ==> SafeEvent(supports, e)
    ensures AtMostOnce(supports, Steps(executionKey, INITIAL, events).calls)
  {
    SafeStepsStayHonest(executionKey, supports, events);
    HonestCallsHappenAtMostOnce(supports, Steps(executionKey, INITIAL, events));
  }

  // ----- A dangerous list really fails -----

  /** Every run of the history is offered the same candidates. */
  ghost predicate OnlyOffers(job: Job, events: seq<Event>) {
    forall e :: e in events && e.Start? ==> e.job == job
  }

  ghost predicate Reachable(executionKey: string, job: Job, s: State) {
    exists events: seq<Event> :: OnlyOffers(job, events) && Steps(executionKey, INITIAL, events) == s
  }

  lemma StartIsReachable(executionKey: string, job: Job)
    ensures Reachable(executionKey, job, INITIAL)
  {
    assert OnlyOffers(job, []) && Steps(executionKey, INITIAL, []) == INITIAL;
  }

  lemma ReachesFurther(executionKey: string, job: Job, s: State, more: seq<Event>)
    requires Reachable(executionKey, job, s) && OnlyOffers(job, more)
    ensures Reachable(executionKey, job, Steps(executionKey, s, more))
  {
    var events: seq<Event> :| OnlyOffers(job, events) && Steps(executionKey, INITIAL, events) == s;
    StepsConcat(executionKey, INITIAL, events, more);
    assert OnlyOffers(job, events + more);
  }

  lemma ReachesNext(executionKey: string, job: Job, s: State, e: Event)
    requires Reachable(executionKey, job, s) && (e.Start? ==> e.job == job)
    ensures Reachable(executionKey, job, Step(executionKey, s, e))
  {
    ReachesFurther(executionKey, job, s, [e]);
    assert [e][..0] == [];
    assert Steps(executionKey, s, [e]) == Step(executionKey, s, e);
  }

  function ServerError(status: int): Answer {
    Rejected(ProviderError(Http(status), status, false, false, false))
  }

  /** One call answered with a server error. */
  lemma CallFails(executionKey: string, job: Job, s: State, status: int) returns (u: State)
    requires Reachable(executionKey, job, s)
    requires s.record.Some? && s.run.Some? && s.run.value.phase == Preparing
    requires s.run.value.position < |s.run.value.candidates|
    ensures Reachable(executionKey, job, u) && u.record.Some?
    ensures var c := s.run.value.candidates[s.run.value.position];
            && u.calls == s.calls + [FailedCall(executionKey, c, status)]
            && u.run == Some(AfterAnswer(s.run.value.(flags := CandidateFlags(c), phase := Waiting),
                                         ServerError(status), true))
  {
    var marked := Step(executionKey, s, Mark(Written));
    ReachesNext(executionKey, job, s, Mark(Written));
    var called := Step(executionKey, marked, Invoke);
    ReachesNext(executionKey, job, marked, Invoke);
    ReachesNext(executionKey, job, called, Receive(ServerError(status), true, true));
    u := Step(executionKey, called, Receive(ServerError(status), true, true));
  }

  lemma AnswersAtSecond(channels: seq<Candidate>, first: int, second: int)
    requires |channels| >= 3 && first in {401, 403, 500} && StatusTriggersRetry(second)
    ensures AfterAnswer(Run(channels, 2, 0, 1, 1, CandidateFlags(channels[0]), Waiting), ServerError(first), true)
            == Run(channels, 2, 1, 1, 2, CandidateFlags(channels[0]), Preparing)
    ensures AfterAnswer(Run(channels, 2, 1, 1, 2, CandidateFlags(channels[1]), Waiting), ServerError(second), true)
            == Run(channels, 2, 1, 2, 3, CandidateFlags(channels[1]), Preparing)
    ensures AfterAnswer(Run(channels, 2, 1, 2, 3, CandidateFlags(channels[1]), Waiting), ServerError(second), true)
            == Run(channels, 2, 1, 2, 3, Flags(channels[2].channel, true, channels[1].idempotent), Ended(false))
  {
  }

  lemma AnswersAtThird(channels: seq<Candidate>, status: int)
    requires |channels| >= 4 && status in {401, 403, 500}
    ensures AfterAnswer(Run(channels, 2, 0, 1, 1, CandidateFlags(channels[0]), Waiting), ServerError(status), true)
            == Run(channels, 2, 1, 1, 2, CandidateFlags(channels[0]), Preparing)
    ensures AfterAnswer(Run(channels, 2, 1, 1, 2, CandidateFlags(channels[1]), Waiting), ServerError(status), true)
            == Run(channels, 2, 2, 1, 3, CandidateFlags(channels[1]), Preparing)
    ensures AfterAnswer(Run(channels, 2, 2, 1, 3, CandidateFlags(channels[2]), Waiting), ServerError(status), true)
            == Run(channels, 2, 2, 1, 3, Flags(channels[3].channel, true, channels[2].idempotent), Ended(false))
  {
  }

  function FailedCall(executionKey: string, c: Candidate, status: int): Call {
    Call(c.channel, CallKey(executionKey, c), ServerError(status))
  }

  /** The record a failed run leaves, and the calls that led to it. */
  ghost predicate LeavesRecord(executionKey: string, u: State, named: Flags, called: seq<Candidate>, statuses: seq<int>)
    requires |called| == |statuses|
  {
    && u.run.None? && u.record == Some(Record(named, false))
    && u.calls == seq(|called|, i requires 0 <= i < |called| => FailedCall(executionKey, called[i], statuses[i]))
  }

  lemma ThreeFailedCalls(executionKey: string, u: State, named: Flags, called: seq<Candidate>, statuses: seq<int>)
    requires |called| == |statuses| == 3 && u.run.None? && u.record == Some(Record(named, false))
    requires u.calls == [FailedCall(executionKey, called[0], statuses[0])]
                        + [FailedCall(executionKey, called[1], statuses[1])]
                        + [FailedCall(executionKey, called[2], statuses[2])]
    ensures LeavesRecord(executionKey, u, named, called, statuses)
  {
  }

  lemma SavedAfterFailure(executionKey: string, job: Job, s: State) returns (u: State)
    requires Reachable(executionKey, job, s)
    requires s.record.Some? && s.run.Some? && s.run.value.phase == Ended(false)
    requires s.run.value.position < |s.run.value.candidates|
    ensures Reachable(executionKey, job, u)
    ensures u.run.None? && u.record == Some(Record(s.run.value.flags, false)) && u.calls == s.calls
  {
    ReachesNext(executionKey, job, s, Save(false));
    ReachesNext(executionKey, job, Step(executionKey, s, Save(false)), Stop);
    u := Step(executionKey, Step(executionKey, s, Save(false)), Stop);
  }

  /**
   Wrong flags are reached from the start, with every run offered the same truthful candidates, when
   the second channel supports idempotency and the third, which is never called, does not: the first
   answers with a server error that moves on, the second twice with one that is retried. The item is
   run again after the last error.
   */
  lemma WrongFlagIsReachable(executionKey: string, supports: nat -> bool, job: Job, first: int, second: int)
    returns (u: State)
    requires var channels := job.channels;
             |channels| >= 3 && Declares(supports, Start(job))
             && supports(channels[1].channel) && !supports(channels[2].channel)
    requires first in {401, 403, 500} && StatusTriggersRetry(second)
    ensures Reachable(executionKey, job, u)
    ensures var c := job.channels;
            LeavesRecord(executionKey, u, Flags(c[2].channel, true, true), [c[0], c[1], c[1]], [first, second, second])
    ensures job.channels[2].channel != 0 ==> !HonestFlags(supports, u.record.value.flags)
    ensures TriggersSameChannelRetry(ServerError(second).error)
  {
    var channels := job.channels;
    assert channels[1] in channels;
    StartIsReachable(executionKey, job);
    ReachesNext(executionKey, job, INITIAL, Start(job));
    AnswersAtSecond(channels, first, second);
    var s1 := CallFails(executionKey, job, Step(executionKey, INITIAL, Start(job)), first);
    assert s1.run == Some(Run(channels, 2, 1, 1, 2, CandidateFlags(channels[0]), Preparing));
    var s2 := CallFails(executionKey, job, s1, second);
    assert s2.run == Some(Run(channels, 2, 1, 2, 3, CandidateFlags(channels[1]), Preparing));
    var s3 := CallFails(executionKey, job, s2, second);
    u := SavedAfterFailure(executionKey, job, s3);
    ThreeFailedCalls(executionKey, u, Flags(channels[2].channel, true, true), [channels[0], channels[1], channels[1]],
                     [first, second, second]);
  }

  /**
   The same for the third and fourth channel, when each of three channels answers with an error that
   moves on. The item is not run again after such an error by itself; it is when the executor stops
   after the failure was saved and before it was reported.
   */
  lemma WrongFlagIsReachableLater(executionKey: string, supports: nat -> bool, job: Job, status: int) returns (u: State)
    requires var channels := job.channels;
             |channels| >= 4 && Declares(supports, Start(job))
             && supports(channels[2].channel) && !supports(channels[3].channel)
    requires status in {401, 403, 500}
    ensures Reachable(executionKey, job, u)
    ensures var c := job.channels;
            LeavesRecord(executionKey, u, Flags(c[3].channel, true, true), [c[0], c[1], c[2]], [status, status, status])
    ensures job.channels[3].channel != 0 ==> !HonestFlags(supports, u.record.value.flags)
  {
    var channels := job.channels;
    assert channels[2] in channels;
    StartIsReachable(executionKey, job);
    ReachesNext(executionKey, job, INITIAL, Start(job));
    AnswersAtThird(channels, status);
    var s1 := CallFails(executionKey, job, Step(executionKey, INITIAL, Start(job)), status);
    assert s1.run == Some(Run(channels, 2, 1, 1, 2, CandidateFlags(channels[0]), Preparing));
    var s2 := CallFails(executionKey, job, s1, status);
    assert s2.run == Some(Run(channels, 2, 2, 1, 3, CandidateFlags(channels[1]), Preparing));
    var s3 := CallFails(executionKey, job, s2, status);
    u := SavedAfterFailure(executionKey, job, s3);
    ThreeFailedCalls(executionKey, u, Flags(channels[3].channel, true, true), [channels[0], channels[1], channels[2]],
                     [status, status, status]);
  }

  /**
   From the start to the repeated call in one history: a list that is dangerous leads to a call whose
   answer never came, on a channel without idempotency support, that is followed by another call.
   */
  lemma DangerousListRepeatsACall(executionKey: string, supports: nat -> bool, job: Job) returns (u: State)
    requires Declares(supports, Start(job)) && Dangerous(job.channels)
    ensures Reachable(executionKey, job, u)
    ensures |u.calls| == 5 && !supports(u.calls[3].channel) && u.calls[3].answer == NoAnswer
    ensures u.calls[4].channel == u.calls[3].channel
  {
    var p := if DangerousAt(job.channels, 1) then 1 else 2;
    assert job.channels[p] in job.channels && job.channels[p + 1] in job.channels;
    var s: State;
    if p == 1 {
      s := WrongFlagIsReachable(executionKey, supports, job, 500, 502);
    } else {
      s := WrongFlagIsReachableLater(executionKey, supports, job, 500);
    }
    var resume := [Start(job)] + RESUME_AND_CRASH;
    ResumeCalls(executionKey, s, job);
    ReachesFurther(executionKey, job, s, resume);
    var t := Steps(executionKey, s, resume);
    ResumeCalls(executionKey, t, job);
    ReachesFurther(executionKey, job, t, resume);
    u := Steps(executionKey, t, resume);
  }

  /** The guarantee over every history in which the runs are offered these candidates. */
  ghost predicate KeepsAtMostOnce(executionKey: string, supports: nat -> bool, job: Job) {
    forall s: State :: Reachable(executionKey, job, s) ==> AtMostOnce(supports, s.calls)
  }

  /** To be seen before any run: the guarantee holds for a truthful list if and only if it is not dangerous. */
  lemma ListIsSafeIff(executionKey: string, supports: nat -> bool, job: Job)
    requires Declares(supports, Start(job))
    ensures KeepsAtMostOnce(executionKey, supports, job) <==> !Dangerous(job.channels)
  {
    if Dangerous(job.channels) {
      var u := DangerousListRepeatsACall(executionKey, supports, job);
      assert !AtMostOnce(supports, u.calls);
    } else {
      forall s: State | Reachable(executionKey, job, s) ensures AtMostOnce(supports, s.calls) {
        var events: seq<Event> :| OnlyOffers(job, events) && Steps(executionKey, INITIAL, events) == s;
        forall e | e in events ensures SafeEvent(supports, e) {
        }
        SafeListsKeepGuarantee(executionKey, supports, events);
      }
    }
  }

  // ----- A run is the failover loop, one call at a time -----

  function AsReply(answer: Answer): Reply {
    match answer
    case Rejected(e) => Failed(e)
    case _ => Succeeded
  }

  /** What a run does after an answer is what the failover loop does after the same attempt. */
  lemma RunFollowsTheLoop(setup: Setup, a: Attempt, r: Run, answer: Answer, live: bool)
    requires setup.external && r.candidates == setup.candidates && r.perCandidate == setup.perCandidate
    requires a.position == r.position < |r.candidates| && a.ordinal == r.ordinal && a.index == r.index
    requires answer != NoAnswer && a.reply == AsReply(answer) && setup.live(a.index) == live
    ensures var u := AfterAnswer(r, answer, live);
            match Next(setup, a)
            case None => u.phase == Ended(answer.Delivered?)
            case Some(b) =>
              u.phase == Preparing && u.position == b.position && u.ordinal == b.ordinal && u.index == b.index
    ensures Next(setup, a) == None && answer.Rejected? && r.flags.channel == r.candidates[r.position].channel ==>
              AfterAnswer(r, answer, live).flags.channel == r.candidates[ChannelOutcome(setup, [a]).position].channel
  {
  }

  /** The answer behind an attempt; one whose bookkeeping failed may have been any answer. */
  function AsAnswer(reply: Reply): Answer {
    match reply
    case Failed(e) => Rejected(e)
    case _ => Delivered
  }

  /** The events of one attempt when nothing interrupts it. */
  function Round(a: Attempt, live: bool): seq<Event> {
    [Mark(Written), Invoke, Receive(AsAnswer(a.reply), live, a.reply != Broken)]
  }

  function Rounds(setup: Setup, t: seq<Attempt>): seq<Event> {
    if t == [] then []
    else Rounds(setup, t[..|t| - 1]) + Round(t[|t| - 1], setup.live(t[|t| - 1].index))
  }

  function CallOf(executionKey: string, setup: Setup, a: Attempt): Call
    requires a.position < |setup.candidates|
  {
    var c := setup.candidates[a.position];
    Call(c.channel, CallKey(executionKey, c), AsAnswer(a.reply))
  }

  function CallsOf(executionKey: string, setup: Setup, t: seq<Attempt>): seq<Call>
    requires forall k :: 0 <= k < |t| ==> t[k].position < |setup.candidates|
  {
    seq(|t|, k requires 0 <= k < |t| => CallOf(executionKey, setup, t[k]))
  }

  /** The run stands before attempt `a`. */
  predicate Before(setup: Setup, s: State, a: Attempt) {
    && s.record.Some? && s.run.Some? && a.position < |setup.candidates|
    && var r := s.run.value;
       && r.candidates == setup.candidates && r.perCandidate == setup.perCandidate && r.phase == Preparing
       && r.position == a.position && r.ordinal == a.ordinal && r.index == a.index
  }

  /** What the attempt `a` makes of the run. */
  function RunAfter(setup: Setup, a: Attempt): Option<Run>
    requires a.position < |setup.candidates|
  {
    var waiting := Run(setup.candidates, setup.perCandidate, a.position, a.ordinal, a.index,
                       CandidateFlags(setup.candidates[a.position]), Waiting);
    if a.reply == Broken then None else Some(AfterAnswer(waiting, AsAnswer(a.reply), setup.live(a.index)))
  }

  lemma RoundMakesTheAttempt(executionKey: string, setup: Setup, s: State, a: Attempt)
    requires Before(setup, s, a)
    ensures var u := Steps(executionKey, s, Round(a, setup.live(a.index)));
            u.record.Some? && u.calls == s.calls + [CallOf(executionKey, setup, a)] && u.run == RunAfter(setup, a)
  {
    var events := Round(a, setup.live(a.index));
    var marked := Step(executionKey, s, events[0]);
    var called := Step(executionKey, marked, events[1]);
    assert events[..2][..1] == events[..1] && events[..1][..0] == [] && events[..3] == events;
    assert Steps(executionKey, s, events[..1]) == marked;
    assert Steps(executionKey, s, events[..2]) == called;
    assert Steps(executionKey, s, events) == Step(executionKey, called, events[2]);
  }

  /**
   Between crashes a run is the failover loop: the calls of an uninterrupted run are the attempts of
   the loop's trace, one by one, with the same answers.
   */
  lemma {:induction false} RunMakesTheAttempts(executionKey: string, setup: Setup, s: State, t: seq<Attempt>)
    requires setup.external && Chained(setup, t) && t != [] && Before(setup, s, AttemptAt(setup, 0, 1, 1))
    ensures var u := Steps(executionKey, s, Rounds(setup, t));
            && u.record.Some?
            && u.calls == s.calls + CallsOf(executionKey, setup, t)
            && u.run == RunAfter(setup, t[|t| - 1])
    decreases |t|
  {
    var before, last := t[..|t| - 1], t[|t| - 1];
    var m := Steps(executionKey, s, Rounds(setup, before));
    StepsConcat(executionKey, s, Rounds(setup, before), Round(last, setup.live(last.index)));
    assert CallsOf(executionKey, setup, t) ==
      CallsOf(executionKey, setup, before) + [CallOf(executionKey, setup, last)];
    if before != [] {
      RunMakesTheAttempts(executionKey, setup, s, before);
      RunStandsBefore(setup, m, before[|before| - 1], last);
    }
    RoundMakesTheAttempt(executionKey, setup, m, last);
  }

  lemma RunStandsBefore(setup: Setup, m: State, a: Attempt, b: Attempt)
    requires setup.external && a.position < |setup.candidates| && Next(setup, a) == Some(b)
    requires m.record.Some? && m.run == RunAfter(setup, a)
    ensures Before(setup, m, b)
  {
    var waiting := Run(setup.candidates, setup.perCandidate, a.position, a.ordinal, a.index,
                       CandidateFlags(setup.candidates[a.position]), Waiting);
    RunFollowsTheLoop(setup, a, waiting, AsAnswer(a.reply), setup.live(a.index));
  }

  /** And it ends as the loop ends: with its verdict, naming the channel that the loop names. */
  lemma RunEndsAsTheLoop(executionKey: string, setup: Setup, s: State, t: seq<Attempt>)
    requires setup.external && IsTrace(setup, t) && Before(setup, s, AttemptAt(setup, 0, 1, 1))
    ensures var u, outcome := Steps(executionKey, s, Rounds(setup, t)), ChannelOutcome(setup, t);
            && u.calls == s.calls + CallsOf(executionKey, setup, t)
            && (outcome.Aborted? ==> u.run == None)
            && (!outcome.Aborted? ==> u.run.Some? && u.run.value.phase == Ended(outcome.Success?))
            && (outcome.Failure? || outcome.Success? ==>
                  outcome.position < |setup.candidates|
                  && u.run.value.flags.channel == setup.candidates[outcome.position].channel)
  {
    var last := t[|t| - 1];
    RunMakesTheAttempts(executionKey, setup, s, t);
    if last.reply != Broken {
      var waiting := Run(setup.candidates, setup.perCandidate, last.position, last.ordinal, last.index,
                         CandidateFlags(setup.candidates[last.position]), Waiting);
      RunFollowsTheLoop(setup, last, waiting, AsAnswer(last.reply), setup.live(last.index));
      assert ChannelOutcome(setup, t) == ChannelOutcome(setup, [last]);
    }
  }
}
