/** When a certificate is due, what it is served as, and when a failed renewal is tried again. */
module Lifecycle {
  import opened Options
  import opened Powers

  /** Times and durations in nanoseconds. */
  const MINUTE: int := 60_000_000_000
  const HOUR: int := 60 * MINUTE

  datatype Provider = Acme | OriginCA

  datatype ServingStatus = Usable | ExpiringSoon | Expired

  datatype Query = Query(acmeBefore: Option<int>, originCABefore: Option<int>)

  datatype Scheduler = Scheduler(renewalWindow: int, originCARotationWindow: int) {
    function WindowFor(provider: Provider): int {
      if provider == OriginCA && originCARotationWindow > 0 then originCARotationWindow else renewalWindow
    }

    function StatusOf(notAfter: int, provider: Provider, now: int): ServingStatus {
      if notAfter <= now then Expired
      else if WindowFor(provider) > 0 && notAfter <= now + WindowFor(provider) then ExpiringSoon
      else Usable
    }

    predicate IsDue(notAfter: Option<int>, provider: Provider, now: int) {
      notAfter.Some? && WindowFor(provider) > 0 && notAfter.value <= now + WindowFor(provider)
    }

    function CandidateQuery(now: int): Query {
      Query(if renewalWindow > 0 then Some(now + renewalWindow) else None,
            if originCARotationWindow > 0 then Some(now + originCARotationWindow) else None)
    }
  }

  /** The store's reading of a query, as far as expiry and provider go. */
  predicate Selects(q: Query, notAfter: Option<int>, provider: Provider) {
    notAfter.Some? &&
    match provider
    case Acme => q.acmeBefore.Some? && notAfter.value <= q.acmeBefore.value
    case OriginCA => q.originCABefore.Some? && notAfter.value <= q.originCABefore.value
  }

  /** A certificate is due exactly when it is no longer served as usable, if renewal is on for its provider. */
  lemma DueIffNotUsable(s: Scheduler, notAfter: int, provider: Provider, now: int)
    ensures s.IsDue(Some(notAfter), provider, now) <==> s.WindowFor(provider) > 0 && s.StatusOf(notAfter, provider, now) != Usable
  {
  }

  function Stage(status: ServingStatus): nat {
    match status
    case Usable => 0
    case ExpiringSoon => 1
    case Expired => 2
  }

  /** As time goes by a certificate goes from usable to expiring soon to expired, never back; it is expired
      exactly from its expiry on, and expiring soon no longer than its window before. */
  lemma StatusOnlyWorsens(s: Scheduler, notAfter: int, provider: Provider, now: int, later: int)
    requires now <= later
    ensures Stage(s.StatusOf(notAfter, provider, now)) <= Stage(s.StatusOf(notAfter, provider, later))
    ensures s.StatusOf(notAfter, provider, now) == Expired <==> notAfter <= now
    ensures s.StatusOf(notAfter, provider, now) == ExpiringSoon <==> 0 < notAfter - now <= s.WindowFor(provider)
  {
  }

  ghost predicate QueryFindsDue(s: Scheduler) {
    forall notAfter, provider, now ::
      s.IsDue(notAfter, provider, now) <==> Selects(s.CandidateQuery(now), notAfter, provider)
  }

  /** The store's query selects exactly the due certificates if and only if the origin CA window is set, or
      no window is: with the renewal window alone, origin CA certificates are due but not selected. */
  lemma QueryFindsDueIff(s: Scheduler)
    ensures QueryFindsDue(s) <==> s.originCARotationWindow > 0 || s.renewalWindow <= 0
  {
    if s.originCARotationWindow <= 0 && s.renewalWindow > 0 {
      assert s.IsDue(Some(0), OriginCA, 0) && !Selects(s.CandidateQuery(0), Some(0), OriginCA);
    }
  }

  // ---------- the next attempt ----------

  function Attempts(failureCount: int): nat {
    if failureCount < 1 then 1 else failureCount
  }

  function Minutes(failureCount: int): nat {
    var m := Pow2(Attempts(failureCount) - 1);
    if m > 60 then 60 else m
  }

  predicate ExpiresWithinDay(now: int, notAfter: Option<int>) {
    notAfter.Some? && 0 < notAfter.value - now <= 24 * HOUR
  }

  /** The delay, without the loop. */
  function AttemptDelay(now: int, failureCount: int, notAfter: Option<int>): int {
    var minutes := Minutes(failureCount);
    (if ExpiresWithinDay(now, notAfter) && minutes > 5 then 5 else minutes) * MINUTE
  }

  const MAX_DURATION: int := 0x7FFF_FFFF_FFFF_FFFF

  /** `time.Time.Sub`, which stops at the largest durations. */
  function Sub(t: int, u: int): int {
    if t - u > MAX_DURATION then MAX_DURATION
    else if t - u < -MAX_DURATION - 1 then -MAX_DURATION - 1
    else t - u
  }

  method NextAttemptAt(now: int, failureCount: int, notAfter: Option<int>) returns (at: int)
    ensures at == now + AttemptDelay(now, failureCount, notAfter)
  {
    var count := if failureCount < 1 then 1 else failureCount;
    var delay := MINUTE;
    var i := 1;
    while i < count && delay < HOUR
      invariant 1 <= i <= count && delay == Pow2(i - 1) * MINUTE
      invariant i <= 7
      decreases count - i
    {
      assert Pow2(i) == 2 * Pow2(i - 1);
      assert Pow2(6) == 64;
      delay := delay * 2;
      i := i + 1;
    }
    Pow2IsMonotone(i - 1, count - 1);
    if delay > HOUR {
      delay := HOUR;
    }
    if notAfter.Some? {
      var remaining := Sub(notAfter.value, now);
      if remaining > 0 && remaining <= 24 * HOUR && delay > 5 * MINUTE {
        delay := 5 * MINUTE;
      }
    }
    return now + delay;
  }

  /** Without an expiry near, the delay starts at a minute and doubles with each failure up to an hour; in the
      24 hours before the certificate expires it is five minutes at most, and otherwise the expiry changes nothing. */
  lemma DelayDoubles(now: int, n: int, notAfter: Option<int>)
    ensures n <= 1 ==> AttemptDelay(now, n, None) == MINUTE
    ensures n >= 1 ==> AttemptDelay(now, n + 1, None) == AtMost(2 * AttemptDelay(now, n, None), HOUR)
    ensures AttemptDelay(now, n, notAfter) ==
      if notAfter.Some? && now < notAfter.value && now >= notAfter.value - 24 * HOUR
      then AtMost(AttemptDelay(now, n, None), 5 * MINUTE) else AttemptDelay(now, n, None)
  {
  }

  function AtMost(delay: int, limit: int): int {
    if delay < limit then delay else limit
  }

  /** More failures never bring the next attempt forward; it is between a minute and an hour away, and
      within five minutes on the last day. */
  lemma DelayIsMonotoneAndBounded(now: int, m: int, n: int, notAfter: Option<int>)
    requires m <= n
    ensures MINUTE <= AttemptDelay(now, m, notAfter) <= AttemptDelay(now, n, notAfter) <= HOUR
    ensures ExpiresWithinDay(now, notAfter) ==> AttemptDelay(now, n, notAfter) <= 5 * MINUTE
  {
    Pow2IsMonotone(Attempts(m) - 1, Attempts(n) - 1);
  }
}
