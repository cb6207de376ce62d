/** How many verification codes may be sent. Times and durations are in nanoseconds. */
module SmsLimit {
  import opened Foundations

  const SECOND: int := 1_000_000_000
  const HOUR: int := 3600 * SECOND
  const RESEND_WINDOW: int := 60 * SECOND
  const PHONE_HOUR_LIMIT: nat := 5
  const IP_HOUR_LIMIT: nat := 20

  /** A stored code: to whom it went, from which address it was asked for, and when the row was created. */
  datatype Code = Code(phone: string, ip: string, createdAt: int)

  /** The limits are checked at `now`; the row is created later, if the message could be sent and stored. */
  datatype Request = Request(phone: string, ip: string, now: int, sent: bool, stored: bool, createdAt: int)

  function Count(codes: seq<Code>, counted: Code -> bool): nat {
    if codes == [] then 0
    else Count(codes[..|codes| - 1], counted) + if counted(codes[|codes| - 1]) then 1 else 0
  }

  /** The creation time of the newest code for a phone. */
  function Latest(codes: seq<Code>, phone: string): (latest: Option<int>)
    ensures latest.None? <==> forall c :: c in codes ==> c.phone != phone
    ensures latest.Some? ==> forall c :: c in codes && c.phone == phone ==> c.createdAt <= latest.value
    ensures latest.Some? ==> exists c :: c in codes && c.phone == phone && c.createdAt == latest.value
  {
    if codes == [] then None
    else
      var front, last := codes[..|codes| - 1], codes[|codes| - 1];
      assert codes == front + [last];
      var before := Latest(front, phone);
      if last.phone != phone then before
      else if before.Some? && before.value >= last.createdAt then before
      else Some(last.createdAt)
  }

  function PhoneSince(phone: string, since: int): Code -> bool {
    (c: Code) => c.phone == phone && c.createdAt >= since
  }

  function IpSince(ip: string, since: int): Code -> bool {
    (c: Code) => c.ip == ip && c.createdAt >= since
  }

  /** How long to wait, if sending is refused now. */
  function SendLimited(codes: seq<Code>, phone: string, ip: string, now: int): Option<int> {
    var latest := Latest(codes, phone);
    if latest.Some? && 0 <= now - latest.value < RESEND_WINDOW then Some(RESEND_WINDOW - (now - latest.value))
    else if Count(codes, PhoneSince(phone, now - HOUR)) >= PHONE_HOUR_LIMIT then Some(HOUR)
    else if Count(codes, IpSince(ip, now - HOUR)) >= IP_HOUR_LIMIT then Some(HOUR)
    else None
  }

  function Handle(codes: seq<Code>, r: Request): seq<Code> {
    if SendLimited(codes, r.phone, r.ip, r.now).None? && r.sent && r.stored
    then codes + [Code(r.phone, r.ip, r.createdAt)]
    else codes
  }

  class CodeStore {
    var codes: seq<Code>

    constructor ()
      ensures codes == []
    {
      codes := [];
    }

    method SmsSendLimited(phone: string, ip: string, now: int) returns (retryAfter: int, limited: bool)
      ensures limited == SendLimited(codes, phone, ip, now).Some?
      ensures retryAfter == if limited then SendLimited(codes, phone, ip, now).value else 0
    {
      var latest := Latest(codes, phone);
      if latest.Some? {
        var elapsed := now - latest.value;
        if elapsed >= 0 && elapsed < RESEND_WINDOW {
          return RESEND_WINDOW - elapsed, true;
        }
      }
      var since := now - HOUR;
      if Count(codes, PhoneSince(phone, since)) >= PHONE_HOUR_LIMIT {
        return HOUR, true;
      }
      if Count(codes, IpSince(ip, since)) >= IP_HOUR_LIMIT {
        return HOUR, true;
      }
      return 0, false;
    }

    method HandleSendSMSCode(r: Request) returns (ok: bool)
      modifies this
      ensures codes == Handle(old(codes), r)
      ensures ok <==> SendLimited(old(codes), r.phone, r.ip, r.now).None? && r.sent && r.stored
      ensures codes == if ok then old(codes) + [Code(r.phone, r.ip, r.createdAt)] else old(codes)
    {
      var retryAfter, limited := SmsSendLimited(r.phone, r.ip, r.now);
      if limited {
        return false;
      }
      if !r.sent {
        return false;
      }
      if !r.stored {
        return false;
      }
      codes := codes + [Code(r.phone, r.ip, r.createdAt)];
      return true;
    }
  }

  // ----- Whole histories -----

  /** The codes stored by a sequence of requests, handled one after the other. */
  function History(requests: seq<Request>): seq<Code>
    decreases |requests|
  {
    if requests == [] then [] else Handle(History(requests[..|requests| - 1]), requests[|requests| - 1])
  }

  /** A row is created after its limits were checked. */
  ghost predicate ChecksFirst(requests: seq<Request>) {
    forall i :: 0 <= i < |requests| ==> requests[i].now <= requests[i].createdAt
  }

  /** The clock never goes back, from one request to the next. */
  ghost predicate InClockOrder(requests: seq<Request>) {
    forall i, j :: 0 <= i < j < |requests| ==> requests[i].createdAt <= requests[j].now
  }

  function PhoneWithin(phone: string, from: int): Code -> bool {
    (c: Code) => c.phone == phone && from <= c.createdAt <= from + HOUR
  }

  function IpWithin(ip: string, from: int): Code -> bool {
    (c: Code) => c.ip == ip && from <= c.createdAt <= from + HOUR
  }

  lemma {:induction false} CountMonotone(codes: seq<Code>, p: Code -> bool, q: Code -> bool)
    requires forall c :: c in codes && p(c) ==> q(c)
    ensures Count(codes, p) <= Count(codes, q)
  {
    if codes != [] {
      assert codes[|codes| - 1] in codes;
      assert forall c :: c in codes[..|codes| - 1] ==> c in codes;
      CountMonotone(codes[..|codes| - 1], p, q);
    }
  }

  lemma CountAppend(codes: seq<Code>, c: Code, p: Code -> bool)
    ensures Count(codes + [c], p) == Count(codes, p) + if p(c) then 1 else 0
  {
    assert (codes + [c])[..|codes|] == codes;
  }

  /** Any one-hour window, anywhere in the history and closed at both ends, holds at most five codes of one phone. */
  lemma {:induction false} PhoneWindowIsBounded(requests: seq<Request>, phone: string, from: int)
    requires ChecksFirst(requests)
    ensures Count(History(requests), PhoneWithin(phone, from)) <= 5
    decreases |requests|
  {
    if requests != [] {
      var before, r := requests[..|requests| - 1], requests[|requests| - 1];
      PhoneWindowIsBounded(before, phone, from);
      var codes, c := History(before), Code(r.phone, r.ip, r.createdAt);
      if History(requests) != codes {
        CountAppend(codes, c, PhoneWithin(phone, from));
        if PhoneWithin(phone, from)(c) {
          CountMonotone(codes, PhoneWithin(phone, from), PhoneSince(phone, r.now - HOUR));
        }
      }
    }
  }

  /** And at most twenty codes asked for from one address. */
  lemma {:induction false} IpWindowIsBounded(requests: seq<Request>, ip: string, from: int)
    requires ChecksFirst(requests)
    ensures Count(History(requests), IpWithin(ip, from)) <= 20
    decreases |requests|
  {
    if requests != [] {
      var before, r := requests[..|requests| - 1], requests[|requests| - 1];
      IpWindowIsBounded(before, ip, from);
      var codes, c := History(before), Code(r.phone, r.ip, r.createdAt);
      if History(requests) != codes {
        CountAppend(codes, c, IpWithin(ip, from));
        if IpWithin(ip, from)(c) {
          CountMonotone(codes, IpWithin(ip, from), IpSince(ip, r.now - HOUR));
        }
      }
    }
  }

  ghost predicate SpacedOut(codes: seq<Code>) {
    forall i, j :: 0 <= i < j < |codes| && codes[i].phone == codes[j].phone ==>
      codes[j].createdAt - codes[i].createdAt >= 60 * SECOND
  }

  lemma {:induction false} CodesComeFromRequests(requests: seq<Request>, c: Code)
    requires c in History(requests)
    ensures exists r :: r in requests && r.createdAt == c.createdAt
    decreases |requests|
  {
    var before, last := requests[..|requests| - 1], requests[|requests| - 1];
    if c in History(before) {
      CodesComeFromRequests(before, c);
      var r :| r in before && r.createdAt == c.createdAt;
      assert r in requests;
    } else {
      assert last in requests;
    }
  }

  lemma NoCodeInTheFuture(before: seq<Request>, r: Request)
    requires InClockOrder(before + [r])
    ensures NewestIsPast(History(before), r.phone, r.now)
  {
    var requests := before + [r];
    forall c | c in History(before) ensures c.createdAt <= r.now {
      CodesComeFromRequests(before, c);
      var q :| q in before && q.createdAt == c.createdAt;
      var i :| 0 <= i < |before| && before[i] == q;
      assert requests[i] == q && requests[|before|] == r;
    }
  }

  /** No code of the phone lies in the future. */
  ghost predicate NewestIsPast(codes: seq<Code>, phone: string, now: int) {
    forall c :: c in codes && c.phone == phone ==> c.createdAt <= now
  }

  lemma AcceptedIsSpacedOut(codes: seq<Code>, r: Request)
    requires SpacedOut(codes) && NewestIsPast(codes, r.phone, r.now) && r.now <= r.createdAt
    ensures SpacedOut(Handle(codes, r))
  {
    if Handle(codes, r) != codes {
      forall i | 0 <= i < |codes| && codes[i].phone == r.phone
        ensures r.createdAt - codes[i].createdAt >= RESEND_WINDOW
      {
        assert codes[i] in codes;
      }
    }
  }

  /** With a clock that never goes back, two codes for one phone are at least a minute apart. */
  lemma {:induction false} CodesAreSpacedOut(requests: seq<Request>)
    requires ChecksFirst(requests) && InClockOrder(requests)
    ensures SpacedOut(History(requests))
    decreases |requests|
  {
    if requests != [] {
      var before, r := requests[..|requests| - 1], requests[|requests| - 1];
      assert requests == before + [r];
      CodesAreSpacedOut(before);
      NoCodeInTheFuture(before, r);
      AcceptedIsSpacedOut(History(before), r);
    }
  }

  predicate BelowHourlyLimits(codes: seq<Code>, phone: string, ip: string, now: int) {
    && Count(codes, PhoneSince(phone, now - HOUR)) < PHONE_HOUR_LIMIT
    && Count(codes, IpSince(ip, now - HOUR)) < IP_HOUR_LIMIT
  }

  lemma FutureCodeDoesNotRefuse(codes: seq<Code>, c: Code, phone: string, ip: string, now: int)
    requires c in codes && c.phone == phone && c.createdAt > now && BelowHourlyLimits(codes, phone, ip, now)
    ensures SendLimited(codes, phone, ip, now).None?
  {
  }

  lemma TooSoon(codes: seq<Code>, c: Code, added: Code)
    requires c in codes && added.phone == c.phone && added.createdAt - c.createdAt < RESEND_WINDOW
    ensures !SpacedOut(codes + [added])
  {
    var i :| 0 <= i < |codes| && codes[i] == c;
    assert (codes + [added])[i] == c && (codes + [added])[|codes|] == added;
  }

  /** Whenever the row of the accepted request is written, its codes stay a minute apart. */
  ghost predicate SpacingSurvives(codes: seq<Code>, r: Request) {
    forall at :: at >= r.now ==> SpacedOut(Handle(codes, r.(createdAt := at)))
  }

  /**
   Below the hourly limits the spacing survives a request if and only if no code of the phone lies in
   the future: exactly a clock that was set back breaks it.
   */
  lemma SpacingSurvivesIff(codes: seq<Code>, r: Request)
    requires SpacedOut(codes) && r.sent && r.stored && BelowHourlyLimits(codes, r.phone, r.ip, r.now)
    ensures SpacingSurvives(codes, r) <==> NewestIsPast(codes, r.phone, r.now)
  {
    if NewestIsPast(codes, r.phone, r.now) {
      forall at | at >= r.now ensures SpacedOut(Handle(codes, r.(createdAt := at))) {
        AcceptedIsSpacedOut(codes, r.(createdAt := at));
      }
    } else {
      var c :| c in codes && c.phone == r.phone && c.createdAt > r.now;
      FutureBreaksSpacing(codes, c, r);
    }
  }

  lemma FutureBreaksSpacing(codes: seq<Code>, c: Code, r: Request)
    requires c in codes && c.phone == r.phone && c.createdAt > r.now && r.sent && r.stored
    requires BelowHourlyLimits(codes, r.phone, r.ip, r.now)
    ensures !SpacedOut(Handle(codes, r.(createdAt := c.createdAt)))
  {
    FutureCodeDoesNotRefuse(codes, c, r.phone, r.ip, r.now);
    TooSoon(codes, c, Code(r.phone, r.ip, c.createdAt));
  }

  /** Setting the clock back by any amount between two requests for a phone lets both codes out at once. */
  lemma ClockSetBackSendsTwice(phone: string, ip: string, first: int, back: int)
    requires back > 0
    ensures var requests := [Request(phone, ip, first, true, true, first),
                             Request(phone, ip, first - back, true, true, first - back)];
            && ChecksFirst(requests) && !InClockOrder(requests)
            && History(requests) == [Code(phone, ip, first), Code(phone, ip, first - back)]
            && !SpacedOut(History(requests))
  {
    var r := Request(phone, ip, first, true, true, first);
    var q := Request(phone, ip, first - back, true, true, first - back);
    assert !([r, q][0].createdAt <= [r, q][1].now);
    FirstIsAccepted(r);
    SecondIsAccepted(Code(phone, ip, first), q);
    assert [r, q][..1] == [r];
    TooSoon([Code(phone, ip, first)], Code(phone, ip, first), Code(phone, ip, first - back));
  }

  lemma SecondIsAccepted(c: Code, q: Request)
    requires c.phone == q.phone && c.createdAt > q.now && q.sent && q.stored
    ensures Handle([c], q) == [c, Code(q.phone, q.ip, q.createdAt)]
  {
    CountAtMostLength([c], PhoneSince(q.phone, q.now - HOUR));
    CountAtMostLength([c], IpSince(q.ip, q.now - HOUR));
    FutureCodeDoesNotRefuse([c], c, q.phone, q.ip, q.now);
  }

  lemma FirstIsAccepted(r: Request)
    requires r.sent && r.stored
    ensures History([r]) == [Code(r.phone, r.ip, r.createdAt)]
  {
    assert [r][..0] == [];
    assert Count([], PhoneSince(r.phone, r.now - HOUR)) == 0 && Count([], IpSince(r.ip, r.now - HOUR)) == 0;
  }

  lemma {:induction false} CountAtMostLength(codes: seq<Code>, counted: Code -> bool)
    ensures Count(codes, counted) <= |codes|
  {
    if codes != [] {
      CountAtMostLength(codes[..|codes| - 1], counted);
    }
  }

  /** Sending is allowed exactly below both hourly limits, with the newest code a minute old or in the future. */
  lemma SendingIsAllowedIff(codes: seq<Code>, phone: string, ip: string, now: int)
    ensures SendLimited(codes, phone, ip, now).None? <==>
            && Count(codes, PhoneSince(phone, now - HOUR)) < 5 && Count(codes, IpSince(ip, now - HOUR)) < 20
            && (|| (exists c :: c in codes && c.phone == phone && c.createdAt > now)
                || (forall c :: c in codes && c.phone == phone ==> now - c.createdAt >= 60 * SECOND))
  {
  }

  lemma {:induction false} CountNone(codes: seq<Code>, p: Code -> bool)
    requires forall c :: c in codes ==> !p(c)
    ensures Count(codes, p) == 0
  {
    if codes != [] {
      assert codes[|codes| - 1] in codes;
      assert forall c :: c in codes[..|codes| - 1] ==> c in codes;
      CountNone(codes[..|codes| - 1], p);
    }
  }

  /** Nobody is locked out: an hour without codes to the phone or from the address is always enough. */
  lemma QuietHourIsEnough(codes: seq<Code>, phone: string, ip: string, now: int)
    requires forall c :: c in codes && (c.phone == phone || c.ip == ip) ==> c.createdAt < now - HOUR
    ensures SendLimited(codes, phone, ip, now).None?
  {
    CountNone(codes, PhoneSince(phone, now - HOUR));
    CountNone(codes, IpSince(ip, now - HOUR));
  }

  /**
   The advice to wait out the rest of the minute is right: the minute blocks until then and no longer.
   It is given exactly when the newest code is less than a minute old.
   */
  lemma MinuteAdviceIsExact(codes: seq<Code>, c: Code, phone: string, ip: string, now: int)
    requires c in codes && c.phone == phone && 0 <= now - c.createdAt < RESEND_WINDOW
    requires forall d :: d in codes && d.phone == phone ==> d.createdAt <= c.createdAt
    ensures SendLimited(codes, phone, ip, now) == Some(c.createdAt + 60 * SECOND - now)
    ensures forall at :: now <= at < c.createdAt + 60 * SECOND ==> SendLimited(codes, phone, ip, at).Some?
    ensures SendLimited(codes, phone, ip, c.createdAt + 60 * SECOND) in {None, Some(HOUR)}
  {
  }

  /** No shorter wait would do. */
  ghost predicate IsLeastWait(codes: seq<Code>, phone: string, ip: string, now: int, wait: int) {
    forall at :: now <= at < now + wait ==> SendLimited(codes, phone, ip, at).Some?
  }

  /**
   The advice to wait an hour is enough unless a limit is filled by codes no older than now,
   and no shorter wait would do exactly when one is filled by codes no older than the moment before now.
   */
  lemma HourAdviceIff(codes: seq<Code>, phone: string, ip: string, now: int)
    requires SendLimited(codes, phone, ip, now) == Some(HOUR)
    requires NewestIsPast(codes, phone, now)
    ensures SendLimited(codes, phone, ip, now + HOUR).None? <==>
            Count(codes, PhoneSince(phone, now)) < 5 && Count(codes, IpSince(ip, now)) < 20
    ensures IsLeastWait(codes, phone, ip, now, HOUR) <==>
            Count(codes, PhoneSince(phone, now - 1)) >= 5 || Count(codes, IpSince(ip, now - 1)) >= 20
  {
    if Count(codes, PhoneSince(phone, now - 1)) >= 5 || Count(codes, IpSince(ip, now - 1)) >= 20 {
      forall at | now <= at < now + HOUR ensures SendLimited(codes, phone, ip, at).Some? {
        CountMonotone(codes, PhoneSince(phone, now - 1), PhoneSince(phone, at - HOUR));
        CountMonotone(codes, IpSince(ip, now - 1), IpSince(ip, at - HOUR));
      }
    } else {
      assert SendLimited(codes, phone, ip, now + HOUR - 1).None?;
    }
  }

  lemma {:induction false} CountAll(codes: seq<Code>, p: Code -> bool)
    requires forall c :: c in codes ==> p(c)
    ensures Count(codes, p) == |codes|
  {
    if codes != [] {
      assert codes[|codes| - 1] in codes;
      assert forall c :: c in codes[..|codes| - 1] ==> c in codes;
      CountAll(codes[..|codes| - 1], p);
    }
  }

  /** Five codes an hour old: a moment would do. Twenty codes of this moment from one address: an hour will not. */
  lemma HourAdviceExamples(phone: string, other: string, ip: string, now: int)
    requires other != phone
    ensures var aged := seq(5, i => Code(phone, ip, now - HOUR));
            SendLimited(aged, phone, ip, now) == Some(HOUR) && SendLimited(aged, phone, ip, now + 1).None?
    ensures var recent := seq(20, i => Code(other, ip, now));
            SendLimited(recent, phone, ip, now) == Some(HOUR) == SendLimited(recent, phone, ip, now + HOUR)
  {
    var aged, recent := seq(5, i => Code(phone, ip, now - HOUR)), seq(20, i => Code(other, ip, now));
    assert aged[0] in aged;
    CountAll(aged, PhoneSince(phone, now - HOUR));
    CountNone(aged, PhoneSince(phone, now + 1 - HOUR));
    CountNone(aged, IpSince(ip, now + 1 - HOUR));
    CountNone(recent, PhoneSince(phone, now - HOUR));
    CountNone(recent, PhoneSince(phone, now));
    CountAll(recent, IpSince(ip, now - HOUR));
    CountAll(recent, IpSince(ip, now));
  }
}
