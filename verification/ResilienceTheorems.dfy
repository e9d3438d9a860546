/** What breaker, retry loop and error translation guarantee together. */
module ResilienceTheorems {
  import opened DomainErrors
  import opened CircuitBreaker
  import opened BreakerRuns
  import opened Retry
  import opened Resilience
  import opened TranslationTheorems
  import ErrorTranslation

  /** An attempt whose error is no infrastructure failure is the last one, and only frees the probe slot. */
  lemma BusinessErrorMovesNothing(err: Err, k: nat, call: Call, p: Policy, ending: Ending, cfg: Settings, f: Fields,
                                  now: int)
    requires !ErrorTranslation.IsInfraError(err) && call.outcome(k) == Some(err)
    requires EndsWith(p, call, ending) && 1 <= k <= ending.attempt
    ensures ending == Returned(k)
    ensures AfterRecord(cfg, f, Classify(FinalError(call, ending)), now) == f.(halfOpenInFlight := false)
  {
    assert !Again(call.outcome, e => ShouldRetry(e), k);
    assert ending.attempt > k ==> GoesOn(call.outcome, e => ShouldRetry(e), call.canceled, k);
  }

  /** An error that a use case reported, whatever its shape and whatever attempt it answers, is not retried,
      and leaves the breaker as it was but for the probe slot, even after failures of the transport. */
  lemma UseCaseErrorsMoveNothing(service: Service, e: Err, notFound: Sentinel, text: string, k: nat, call: Call,
                                 p: Policy, ending: Ending, cfg: Settings, f: Fields, now: int)
    requires EndsWith(p, call, ending) && 1 <= k <= ending.attempt
    requires call.outcome(k) == Some(AcrossTheWire(service, e, notFound, text))
    ensures ending == Returned(k)
    ensures AfterRecord(cfg, f, Classify(FinalError(call, ending)), now) == f.(halfOpenInFlight := false)
  {
    UseCaseErrorsAreNeverInfra(service, e, notFound, text);
    BusinessErrorMovesNothing(call.outcome(k).value, k, call, p, ending, cfg, f, now);
  }

  /** How the breaker counts an admitted call: a success, an infrastructure failure or neither, by the error
      with which the call ends. */
  lemma CallsAreCounted(cfg: Settings, f: Fields, call: Call, ending: Ending, allowedAt: int, recordedAt: int)
    requires Admits(cfg, f, allowedAt)
    ensures Counted(cfg, f, Served(cfg, f, Classify(FinalError(call, ending)), allowedAt, recordedAt),
                    FinalError(call, ending), recordedAt)
  {
  }

  // ---------------------------------------------------------------- what is retried, and what a cancelled call does

  /** A failure of the transport is tried again unless it is the last attempt allowed, the failure itself comes
      of the caller's cancellation, or the wait is cut short. */
  lemma TransportFailureIsRetried(cause: Err, text: string, notFound: Sentinel, k: nat, call: Call, p: Policy,
                                  ending: Ending)
    requires EndsWith(p, call, ending) && 1 <= k <= ending.attempt
    requires call.outcome(k) ==
             Some(Wrapped(text, ErrorTranslation.StatusToDomain(Some(ErrorTranslation.Transport(cause)), notFound).value))
    ensures ending.attempt > k <==>
            !Is(cause, ContextCanceled) && k < p.maxAttempts && !call.canceled(k)
    ensures ending == CanceledAfter(k) <==>
            !Is(cause, ContextCanceled) && k < p.maxAttempts && call.canceled(k)
  {
    TransportHolds(cause, text, notFound, ContextCanceled);
    TransportHolds(cause, text, notFound, ServiceUnavailable);
    assert Again(call.outcome, e => ShouldRetry(e), k) <==> !Is(cause, ContextCanceled);
    assert ending.attempt > k ==> GoesOn(call.outcome, e => ShouldRetry(e), call.canceled, k);
  }

  /** The error of a failed transport holds "service unavailable" and whatever its cause holds. */
  lemma TransportHolds(cause: Err, text: string, notFound: Sentinel, s: Sentinel)
    ensures Is(Wrapped(text, ErrorTranslation.StatusToDomain(Some(ErrorTranslation.Transport(cause)), notFound).value), s)
            <==> s == ServiceUnavailable || Is(cause, s)
  {
    var back := ErrorTranslation.StatusToDomain(Some(ErrorTranslation.Transport(cause)), notFound).value;
    WrappedIs(text, back, s);
    JoinedIs(Message(ServiceUnavailable) + ": " + Text(cause), Leaf(ServiceUnavailable), cause, s);
  }

  lemma CutShortHolds(call: Call, k: nat, s: Sentinel)
    ensures FinalError(call, CanceledAfter(k)).Some?
    ensures Is(FinalError(call, CanceledAfter(k)).value, s) <==> s == RetryCanceled || s == call.contextErr(k)
  {
    JoinedIs(Message(RetryCanceled) + ": " + Message(call.contextErr(k)), Leaf(RetryCanceled), Leaf(call.contextErr(k)), s);
  }

  /** A call whose client goes away during a wait counts for nothing, whatever its attempts were; one whose
      deadline strikes then counts as a failure. Either way the error tells of both. */
  lemma CutShort(call: Call, k: nat, cfg: Settings, f: Fields, allowedAt: int, recordedAt: int)
    requires Admits(cfg, f, allowedAt)
    requires call.contextErr(k) == ContextCanceled || call.contextErr(k) == DeadlineExceeded
    ensures var err := FinalError(call, CanceledAfter(k));
            var g := Served(cfg, f, Classify(err), allowedAt, recordedAt);
            && err.Some? && Is(err.value, RetryCanceled) && Is(err.value, call.contextErr(k))
            && (call.contextErr(k) == ContextCanceled ==> CountsNothing(f, g))
            && (call.contextErr(k) == DeadlineExceeded ==> CountsFailure(cfg, f, g, recordedAt))
  {
    CutShortHolds(call, k, RetryCanceled);
    CutShortHolds(call, k, call.contextErr(k));
    CutShortHolds(call, k, ServiceUnavailable);
    CutShortHolds(call, k, DeadlineExceeded);
    CallsAreCounted(cfg, f, call, CanceledAfter(k), allowedAt, recordedAt);
  }

  // ---------------------------------------------------------------- how long a call waits

  /** With the gateway's policy a call waits 100 and then 200 milliseconds, so 300 in all, whatever its attempts
      return. */
  lemma GatewayWaits(waits: seq<int>)
    requires |waits| < MaxAttempts(SERVICE_RETRY)
    requires forall i | 0 <= i < |waits| :: waits[i] == Backoff(SERVICE_RETRY, i + 1)
    ensures |waits| <= 2 && Sum(waits) == (if |waits| == 0 then 0 else if |waits| == 1 then 100 else 300)
  {
    assert Backoff(SERVICE_RETRY, 2) == 200;
    assert |waits| > 0 ==> Sum(waits[..1]) == Sum(waits[..1][..0]) + waits[0];
    assert |waits| == 1 ==> waits[..1] == waits;
    assert |waits| == 2 ==> Sum(waits) == Sum(waits[..1]) + waits[1];
  }

  // ---------------------------------------------------------------- outage and recovery

  /** A use of the service: when it asks the breaker, and when its ending is recorded. */
  datatype ServiceCall = ServiceCall(call: Call, ending: Ending, arrives: int, records: int)

  /** A call during an outage: every attempt fails in the transport, and the context, if it ends, ends by
      its deadline and not by cancellation. */
  ghost predicate AllFail(p: Policy, c: ServiceCall) {
    && EndsWith(p, c.call, c.ending)
    && (forall k: nat :: c.call.outcome(k).Some? && ShouldRetry(c.call.outcome(k).value))
    && (forall k: nat :: c.call.contextErr(k) == DeadlineExceeded)
  }

  /** What the breaker sees of a call: when it asks, when it is recorded and how, and its attempts. */
  datatype Visit = Visit(arrives: int, records: int, outcome: Outcome, attempts: nat)

  function Visits(calls: seq<ServiceCall>): seq<Visit> {
    seq(|calls|, i requires 0 <= i < |calls| =>
      Visit(calls[i].arrives, calls[i].records, Classify(FinalError(calls[i].call, calls[i].ending)),
            calls[i].ending.attempt))
  }

  /** The calls do not overlap. */
  ghost predicate OneAtATime(start: int, visits: seq<Visit>) {
    && (forall i | 0 <= i < |visits| :: visits[i].arrives <= visits[i].records)
    && (forall i | 0 < i < |visits| :: visits[i - 1].records <= visits[i].arrives)
    && (visits != [] ==> start <= visits[0].arrives)
  }

  /** The breaker, the calls admitted and the backend attempts made so far. */
  datatype Load = Load(cb: Fields, admitted: nat, attempts: nat)

  function Admit(cfg: Settings, load: Load, v: Visit): Load {
    if !Admits(cfg, load.cb, v.arrives) then load
    else Load(Served(cfg, load.cb, v.outcome, v.arrives, v.records), load.admitted + 1, load.attempts + v.attempts)
  }

  function After(cfg: Settings, from: Fields, visits: seq<Visit>): Load {
    if visits == [] then Load(from, 0, 0)
    else Admit(cfg, After(cfg, from, visits[..|visits| - 1]), visits[|visits| - 1])
  }

  lemma FailureIsCounted(p: Policy, c: ServiceCall)
    requires AllFail(p, c)
    ensures Classify(FinalError(c.call, c.ending)) == Failure
    ensures c.ending.attempt <= MaxAttempts(p)
  {
    var k := c.ending.attempt;
    assert c.call.outcome(k).Some? && ShouldRetry(c.call.outcome(k).value);
    if c.ending.CanceledAfter? {
      JoinedIs(Message(RetryCanceled) + ": " + Message(c.call.contextErr(k)), Leaf(RetryCanceled),
               Leaf(c.call.contextErr(k)), DeadlineExceeded);
    }
  }

  /** Up to the threshold every call is admitted; after that, each admitted call cost a timeout. */
  ghost predicate Paced(cfg: Settings, start: int, cb: Fields, admitted: nat) {
    var limit := AtLeastOne(cfg.errorThreshold);
    && cb.state != HalfOpen
    && (cb.state == Closed ==> admitted == cb.failures < limit)
    && (cb.state == Open ==> admitted >= limit && (admitted - limit) * (cfg.timeout + 1) <= cb.lastChange - start)
  }

  lemma ServedPaced(cfg: Settings, start: int, cb: Fields, admitted: nat, arrives: int, records: int)
    requires cfg.timeout >= 0 && Paced(cfg, start, cb, admitted)
    requires start <= arrives <= records && Admits(cfg, cb, arrives)
    ensures Paced(cfg, start, Served(cfg, cb, Failure, arrives, records), admitted + 1)
    ensures Served(cfg, cb, Failure, arrives, records).state == Open ==>
            Served(cfg, cb, Failure, arrives, records).lastChange == records
  {
    var limit := AtLeastOne(cfg.errorThreshold);
    if cb.state == Open {
      assert (admitted + 1 - limit) * (cfg.timeout + 1) ==
             (admitted - limit) * (cfg.timeout + 1) + (cfg.timeout + 1);
    } else if admitted + 1 == limit {
      assert (admitted + 1 - limit) * (cfg.timeout + 1) == 0;
    }
  }

  ghost predicate LoadPaced(cfg: Settings, p: Policy, start: int, load: Load, end: int) {
    && Paced(cfg, start, load.cb, load.admitted)
    && load.attempts <= MaxAttempts(p) * load.admitted
    && start <= end && (load.cb.state == Open ==> load.cb.lastChange <= end)
  }

  lemma OneMore(a: nat, b: nat)
    ensures a * (b + 1) == a * b + a
  {
  }

  lemma AdmitPaced(cfg: Settings, p: Policy, start: int, load: Load, end: int, v: Visit)
    requires cfg.timeout >= 0 && v.outcome == Failure && v.attempts <= MaxAttempts(p)
    requires LoadPaced(cfg, p, start, load, end) && end <= v.arrives <= v.records
    ensures LoadPaced(cfg, p, start, Admit(cfg, load, v), v.records)
  {
    if Admits(cfg, load.cb, v.arrives) {
      ServedPaced(cfg, start, load.cb, load.admitted, v.arrives, v.records);
      OneMore(MaxAttempts(p), load.admitted);
    }
  }

  /** When the last of the calls was recorded. */
  function End(start: int, visits: seq<Visit>): int {
    if visits == [] then start else visits[|visits| - 1].records
  }

  lemma {:induction false} OutagePaced(cfg: Settings, p: Policy, start: int, visits: seq<Visit>)
    requires cfg.timeout >= 0 && OneAtATime(start, visits)
    requires forall i | 0 <= i < |visits| :: visits[i].outcome == Failure && visits[i].attempts <= MaxAttempts(p)
    ensures LoadPaced(cfg, p, start, After(cfg, Fresh(start), visits), End(start, visits))
  {
    if visits != [] {
      var n := |visits| - 1;
      OutagePaced(cfg, p, start, visits[..n]);
      AdmitPaced(cfg, p, start, After(cfg, Fresh(start), visits[..n]), End(start, visits[..n]), visits[n]);
    }
  }

  lemma Monotone(a: int, b: int, c: nat)
    ensures a <= b ==> a * c <= b * c
  {
  }

  lemma QuotientBound(n: int, step: int, elapsed: int)
    requires step > 0 && elapsed >= 0 && (n > 0 ==> n * step <= elapsed)
    ensures n <= elapsed / step
  {
    var q := elapsed / step;
    assert elapsed < (q + 1) * step;
    Monotone(q + 1, n, step);
  }

  /** MaxAttempts * (ErrorThreshold + T / (Timeout + 1)) for elapsed time T. */
  function AttemptBound(cfg: Settings, p: Policy, elapsed: nat): int
    requires cfg.timeout >= 0
  {
    MaxAttempts(p) * (AtLeastOne(cfg.errorThreshold) + elapsed / (cfg.timeout + 1))
  }

  lemma PacedLoad(cfg: Settings, p: Policy, start: int, load: Load, elapsed: int)
    requires cfg.timeout >= 0 && elapsed >= 0
    requires LoadPaced(cfg, p, start, load, start + elapsed)
    ensures load.attempts <= AttemptBound(cfg, p, elapsed)
  {
    var limit := AtLeastOne(cfg.errorThreshold);
    QuotientBound(load.admitted - limit, cfg.timeout + 1, elapsed);
    Monotone(load.admitted, limit + elapsed / (cfg.timeout + 1), MaxAttempts(p));
  }

  /** The load on a failing backend: with calls that do not overlap, the attempts made from a fresh breaker
      over elapsed time T are at most MaxAttempts * (ErrorThreshold + T / (Timeout + 1)). */
  lemma OutageLoad(cfg: Settings, p: Policy, start: int, calls: seq<ServiceCall>, elapsed: nat)
    requires cfg.timeout >= 0 && OneAtATime(start, Visits(calls))
    requires elapsed == End(start, Visits(calls)) - start
    requires forall i | 0 <= i < |calls| :: AllFail(p, calls[i])
    ensures After(cfg, Fresh(start), Visits(calls)).attempts <= AttemptBound(cfg, p, elapsed)
  {
    forall i | 0 <= i < |calls|
      ensures Visits(calls)[i].outcome == Failure && Visits(calls)[i].attempts <= MaxAttempts(p)
    {
      FailureIsCounted(p, calls[i]);
    }
    OutagePaced(cfg, p, start, Visits(calls));
    PacedLoad(cfg, p, start, After(cfg, Fresh(start), Visits(calls)), elapsed);
  }

  lemma GatewayBound(elapsed: nat)
    ensures AttemptBound(SERVICE_SETTINGS, SERVICE_RETRY, elapsed) == 15 + 3 * (elapsed / 10001)
  {
  }

  /** With the gateway's settings and policy: at most 15 attempts, and 3 more for each ten seconds. */
  lemma GatewayOutageLoad(start: int, calls: seq<ServiceCall>, elapsed: nat)
    requires OneAtATime(start, Visits(calls)) && elapsed == End(start, Visits(calls)) - start
    requires forall i | 0 <= i < |calls| :: AllFail(SERVICE_RETRY, calls[i])
    ensures After(SERVICE_SETTINGS, Fresh(start), Visits(calls)).attempts <= 15 + 3 * (elapsed / 10001)
  {
    OutageLoad(SERVICE_SETTINGS, SERVICE_RETRY, start, calls, elapsed);
    GatewayBound(elapsed);
  }

  /** A call that ends without an error, on whatever attempt. */
  ghost predicate Succeeds(p: Policy, c: ServiceCall) {
    EndsWith(p, c.call, c.ending) && FinalError(c.call, c.ending) == None
  }

  /** The breaker on its way back: half-open with that many successes, or open before the first. */
  predicate Recovering(cfg: Settings, f: Fields, g: Fields, n: nat) {
    if n == 0 then g == f
    else if f.successes + n >= cfg.successThreshold then g.state == Closed && g.failures == 0 && g.successes == 0
    else g.state == HalfOpen && g.successes == f.successes + n && !g.halfOpenInFlight
  }

  lemma OneMoreSuccess(cfg: Settings, f: Fields, g: Fields, n: nat, v: Visit)
    requires f.state == Open && v.arrives - f.lastChange > cfg.timeout && v.outcome == Success
    requires Recovering(cfg, f, g, n) && (n == 0 || f.successes + n < cfg.successThreshold)
    ensures Admits(cfg, g, v.arrives)
    ensures Recovering(cfg, f, Served(cfg, g, v.outcome, v.arrives, v.records), n + 1)
  {
  }

  lemma {:induction false} RecoversStepwise(cfg: Settings, f: Fields, visits: seq<Visit>)
    requires f.state == Open && forall i | 0 <= i < |visits| :: visits[i].outcome == Success
    requires forall i | 0 <= i < |visits| :: visits[i].arrives - f.lastChange > cfg.timeout
    requires |visits| <= AtLeastOne(cfg.successThreshold - f.successes)
    ensures var load := After(cfg, f, visits);
            Recovering(cfg, f, load.cb, |visits|) && load.admitted == |visits|
  {
    if visits != [] {
      var n := |visits| - 1;
      RecoversStepwise(cfg, f, visits[..n]);
      OneMoreSuccess(cfg, f, After(cfg, f, visits[..n]).cb, n, visits[n]);
    }
  }

  /** Recovery: from any open breaker, calls that do not overlap, come after the timeout and succeed are all
      admitted, and close the breaker exactly when they are as many as the threshold still asks for. */
  lemma Recovery(cfg: Settings, p: Policy, f: Fields, calls: seq<ServiceCall>)
    requires f.state == Open && OneAtATime(f.lastChange + cfg.timeout + 1, Visits(calls))
    requires forall i | 0 <= i < |calls| :: Succeeds(p, calls[i])
    requires |calls| <= AtLeastOne(cfg.successThreshold - f.successes)
    ensures var load := After(cfg, f, Visits(calls));
            && load.admitted == |calls|
            && (load.cb.state == Closed <==> |calls| == AtLeastOne(cfg.successThreshold - f.successes))
            && (load.cb.state == Closed ==> load.cb.failures == 0 && load.cb.successes == 0)
  {
    var visits := Visits(calls);
    Later(f.lastChange + cfg.timeout + 1, visits);
    RecoversStepwise(cfg, f, visits);
  }

  lemma {:induction false} Later(start: int, visits: seq<Visit>)
    requires OneAtATime(start, visits)
    ensures forall i | 0 <= i < |visits| :: start <= visits[i].arrives
  {
    if visits != [] {
      var n := |visits| - 1;
      Later(start, visits[..n]);
      assert n > 0 ==> visits[..n][n - 1] == visits[n - 1];
    }
  }

  /** With the gateway's settings, from a breaker that has just tripped: two successes close it, one does not. */
  lemma GatewayRecovery(f: Fields, calls: seq<ServiceCall>)
    requires f.state == Open && f.successes == 0 && OneAtATime(f.lastChange + 10001, Visits(calls))
    requires forall i | 0 <= i < |calls| :: Succeeds(SERVICE_RETRY, calls[i])
    requires |calls| <= 2
    ensures After(SERVICE_SETTINGS, f, Visits(calls)).cb.state == Closed <==> |calls| == 2
  {
    Recovery(SERVICE_SETTINGS, SERVICE_RETRY, f, calls);
  }
}
