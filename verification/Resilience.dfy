/** A service's breaker around its retry loop, as the gateway uses them. Times are milliseconds. */
module Resilience {
  import opened DomainErrors
  import opened CircuitBreaker
  import opened Retry
  import ErrorTranslation

  const SERVICE_SETTINGS := Settings(5, 2, 10000)
  const SERVICE_RETRY := Policy(100, 1000, 2.0, 3)

  /** How the breaker classes a result, with `isInfraError` as its failure predicate. */
  function Classify(err: Option<Err>): Outcome {
    if err == None then Success
    else if ErrorTranslation.IsInfraError(err.value) then Failure else Ignored
  }

  predicate ShouldRetry(e: Err) {
    !Is(e, ContextCanceled) && ErrorTranslation.IsInfraError(e)
  }

  /** One use of the service: what each attempt returns, whether the context ends during the wait after
      it, and with which error. */
  datatype Call = Call(outcome: nat -> Option<Err>, canceled: nat -> bool, contextErr: nat -> Sentinel)

  ghost predicate EndsWith(p: Policy, call: Call, ending: Ending) {
    Dictated(p, call.outcome, e => ShouldRetry(e), call.canceled, ending)
  }

  function FinalError(call: Call, ending: Ending): Option<Err> {
    match ending
    case Returned(k) => call.outcome(k)
    case CanceledAfter(k) =>
      Some(Wrap(Message(RetryCanceled) + ": " + Message(call.contextErr(k)),
                [Leaf(RetryCanceled), Leaf(call.contextErr(k))]))
  }

  /** The breaker after an admitted call that was let in and recorded with nothing in between. */
  function Served(cfg: Settings, f: Fields, outcome: Outcome, allowedAt: int, recordedAt: int): Fields {
    AfterRecord(cfg, AfterAllow(cfg, f, allowedAt), outcome, recordedAt)
  }

  /** An admitted call that succeeds clears the failures of a closed breaker; otherwise it counts as a success
      of a probe, and closes the breaker if that fills the threshold. */
  predicate CountsSuccess(cfg: Settings, before: Fields, after: Fields) {
    if before.state == Closed then after.state == Closed && after.failures == 0
    else if before.successes + 1 >= cfg.successThreshold
    then after.state == Closed && after.failures == 0 && after.successes == 0
    else after.state == HalfOpen && after.successes == before.successes + 1 && !after.halfOpenInFlight
  }

  /** An admitted call that fails as infrastructure adds a failure to a closed breaker, which opens at the
      threshold, and opens any other breaker again. */
  predicate CountsFailure(cfg: Settings, before: Fields, after: Fields, recordedAt: int) {
    && after.failures == before.failures + 1
    && (if before.state == Closed && after.failures < cfg.errorThreshold then after.state == Closed
        else after.state == Open && after.lastChange == recordedAt && after.successes == 0)
  }

  /** Any other admitted call counts for nothing, and keeps no probe slot. */
  predicate CountsNothing(before: Fields, after: Fields) {
    && after.failures == before.failures && after.successes == before.successes && !after.halfOpenInFlight
    && after.state == (if before.state == Closed then Closed else HalfOpen)
  }

  /** The breaker has counted an admitted call as its final error says. */
  ghost predicate Counted(cfg: Settings, before: Fields, after: Fields, err: Option<Err>, recordedAt: int) {
    if err == None then CountsSuccess(cfg, before, after)
    else if Is(err.value, ServiceUnavailable) || Is(err.value, DeadlineExceeded)
    then CountsFailure(cfg, before, after, recordedAt)
    else CountsNothing(before, after)
  }

  class ServiceResilience {
    const breaker: Breaker
    const retry: Policy

    constructor (now: int)
      ensures fresh(breaker) && breaker.cfg == SERVICE_SETTINGS && breaker.View() == Fresh(now)
      ensures retry == SERVICE_RETRY
    {
      breaker := new Breaker(SERVICE_SETTINGS, now);
      retry := SERVICE_RETRY;
    }

    /** A refused call makes no attempt and changes nothing; an admitted one runs the retry loop and is
        recorded with the loop's final error. */
    method ExecuteWithResilience(call: Call, allowedAt: int, recordedAt: int)
      returns (ending: Option<Ending>, err: Option<Err>)
      modifies breaker
      ensures ending.Some? <==> Admits(breaker.cfg, old(breaker.View()), allowedAt)
      ensures ending == None ==> err == Some(Leaf(CircuitOpen)) && breaker.View() == old(breaker.View())
      ensures ending.Some? ==> EndsWith(retry, call, ending.value) && err == FinalError(call, ending.value)
      ensures ending.Some? ==>
        breaker.View() == Served(breaker.cfg, old(breaker.View()), Classify(err), allowedAt, recordedAt)
      ensures ending.Some? ==> Counted(breaker.cfg, old(breaker.View()), breaker.View(), err, recordedAt)
    {
      var admitted := breaker.Allow(allowedAt);
      if !admitted {
        return None, Some(Leaf(CircuitOpen));
      }
      var done, _ := RetryExecute(retry, call.outcome, e => ShouldRetry(e), call.canceled);
      ending, err := Some(done), FinalError(call, done);
      breaker.Record(Classify(err), recordedAt);
    }

    /** The form for writes: the breaker around a single attempt. */
    method ExecuteCircuitOnly(result: Option<Err>, allowedAt: int, recordedAt: int)
      returns (ran: bool, err: Option<Err>)
      modifies breaker
      ensures ran <==> Admits(breaker.cfg, old(breaker.View()), allowedAt)
      ensures err == if ran then result else Some(Leaf(CircuitOpen))
      ensures breaker.View() ==
              if ran then Served(breaker.cfg, old(breaker.View()), Classify(result), allowedAt, recordedAt)
              else old(breaker.View())
      ensures ran ==> Counted(breaker.cfg, old(breaker.View()), breaker.View(), err, recordedAt)
    {
      ran := breaker.Allow(allowedAt);
      if !ran {
        return false, Some(Leaf(CircuitOpen));
      }
      err := result;
      breaker.Record(Classify(err), recordedAt);
    }
  }
}
