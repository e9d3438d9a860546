/** Every interleaving of calls through one breaker. A call is admitted in one step and recorded in a
    later one; its operation runs between them, outside the lock, so results of old calls can land in
    any state. A run is a list of actions; an action that is not possible changes nothing. */
module BreakerRuns {
  import opened CircuitBreaker

  /** What the breaker did, in order: the history that its fields summarise. `Probing` is the change to
      half-open, which admits a first probe, `Probe` the admission of a further one. */
  datatype Event = Recorded(outcome: Outcome) | Trip(at: int) | Probing(at: int) | Probe | Reset(at: int)

  /** `inFlight` holds the admitted calls not yet recorded; `probes` those of them admitted in the current
      half-open period; `stale` counts the calls that were in flight when that period began; `prober` is
      the call that last set `halfOpenInFlight`. `late` counts the calls left in flight by the last trip, and
      `probeWins` the successes recorded since then by calls admitted since then. */
  datatype System = System(cb: Fields, clock: int, inFlight: set<nat>, log: seq<Event>,
                           probes: set<nat>, stale: nat, prober: nat, late: nat, probeWins: nat)

  datatype Action = Arrive(id: nat) | Finish(id: nat, outcome: Outcome) | Tick(delay: nat)

  function Start(now: int): System {
    System(Fresh(now), now, {}, [], {}, 0, 0, 0, 0)
  }

  function Arrived(cfg: Settings, s: System, id: nat): System {
    var cb := AfterAllow(cfg, s.cb, s.clock);
    var t := s.(cb := cb, inFlight := s.inFlight + {id});
    if cb.state != HalfOpen then t
    else if s.cb.state == HalfOpen then t.(log := s.log + [Probe], probes := s.probes + {id}, prober := id)
    else t.(log := s.log + [Probing(s.clock)], probes := {id}, stale := |s.inFlight|, prober := id)
  }

  function Finished(cfg: Settings, s: System, id: nat, outcome: Outcome): System {
    var cb := AfterRecord(cfg, s.cb, outcome, s.clock);
    var change := if cb.state == s.cb.state then [] else if cb.state == Open then [Trip(s.clock)] else [Reset(s.clock)];
    var trips := cb.state == Open && s.cb.state != Open;
    s.(cb := cb, inFlight := s.inFlight - {id}, log := s.log + [Recorded(outcome)] + change,
       probes := if trips then {} else s.probes - {id},
       late := if trips then |s.inFlight - {id}| else s.late,
       probeWins := if trips then 0 else s.probeWins + ProbeWin(s, id, outcome))
  }

  function ProbeWin(s: System, id: nat, outcome: Outcome): nat {
    if outcome == Success && id in s.probes then 1 else 0
  }

  function Apply(cfg: Settings, s: System, a: Action): System {
    match a
    case Arrive(id) => if id in s.inFlight || !Admits(cfg, s.cb, s.clock) then s else Arrived(cfg, s, id)
    case Finish(id, outcome) => if id in s.inFlight then Finished(cfg, s, id, outcome) else s
    case Tick(delay) => s.(clock := s.clock + delay)
  }

  function Exec(cfg: Settings, now: int, run: seq<Action>): System {
    if run == [] then Start(now)
    else Apply(cfg, Exec(cfg, now, run[..|run| - 1]), run[|run| - 1])
  }

  // ---------------------------------------------------------------- reading the history

  /** Counted failures recorded since the last success, reset or start; other errors do not interrupt. */
  function TrailingFailures(log: seq<Event>): nat {
    if log == [] then 0
    else
      match log[|log| - 1]
      case Recorded(Failure) => TrailingFailures(log[..|log| - 1]) + 1
      case Recorded(Success) => 0
      case Reset(_) => 0
      case _ => TrailingFailures(log[..|log| - 1])
  }

  function SuccessesSinceTrip(log: seq<Event>): nat {
    if log == [] then 0
    else
      match log[|log| - 1]
      case Recorded(Success) => SuccessesSinceTrip(log[..|log| - 1]) + 1
      case Trip(_) => 0
      case _ => SuccessesSinceTrip(log[..|log| - 1])
  }

  function FailuresSinceProbing(log: seq<Event>): nat {
    if log == [] then 0
    else
      match log[|log| - 1]
      case Recorded(Failure) => FailuresSinceProbing(log[..|log| - 1]) + 1
      case Probing(_) => 0
      case _ => FailuresSinceProbing(log[..|log| - 1])
  }

  function TripTimes(log: seq<Event>): seq<int> {
    if log == [] then []
    else
      var before := TripTimes(log[..|log| - 1]);
      match log[|log| - 1]
      case Trip(at) => before + [at]
      case _ => before
  }

  function AtLeastOne(x: int): int {
    if x < 1 then 1 else x
  }

  /** What earns the reset that follows `log`: enough successes since the trip, and no counted failure
      since the breaker began to probe. */
  predicate EarnsReset(cfg: Settings, log: seq<Event>) {
    SuccessesSinceTrip(log) >= AtLeastOne(cfg.successThreshold) && FailuresSinceProbing(log) == 0
  }

  ghost predicate ResetsEarned(cfg: Settings, log: seq<Event>) {
    forall i | 0 <= i < |log| && log[i].Reset? :: EarnsReset(cfg, log[..i])
  }

  // ---------------------------------------------------------------- invariants

  /** The counters say what the history says. */
  ghost predicate CountersTrue(cfg: Settings, s: System) {
    && (s.cb.state == Closed ==> s.cb.failures == TrailingFailures(s.log) && s.cb.successes == 0)
    && (s.cb.state != Closed ==> s.cb.successes == SuccessesSinceTrip(s.log))
    && (s.cb.state == HalfOpen ==> FailuresSinceProbing(s.log) == 0)
    && (s.cb.state == Closed <==> s.cb.failures < AtLeastOne(cfg.errorThreshold))
    && s.cb.failures >= 0
    && ResetsEarned(cfg, s.log)
  }

  /** Who holds the probe slot, and how many calls a half-open period can have in flight. */
  ghost predicate SlotHeld(s: System) {
    && (s.cb.halfOpenInFlight ==> s.cb.state == HalfOpen && s.prober in s.probes)
    && s.probes <= s.inFlight
    && (s.cb.state == HalfOpen ==> |s.inFlight| <= s.stale + (if s.cb.halfOpenInFlight then 1 else 0))
  }

  /** Outside Closed, every counted success is a probe's or one of the calls that the trip left in flight. */
  ghost predicate SuccessesAccounted(s: System) {
    && (s.cb.state == Open ==> s.probes == {} && s.probeWins == 0 && |s.inFlight| <= s.late)
    && (s.cb.state != Closed ==> s.cb.successes + |s.inFlight - s.probes| <= s.probeWins + s.late)
    && (s.cb.state == HalfOpen ==> s.stale <= s.late)
  }

  ghost predicate TripsSpaced(cfg: Settings, s: System) {
    SpacedUpTo(cfg.timeout, s.cb.state, s.cb.lastChange, s.clock, TripTimes(s.log))
  }

  /** Trips are apart, and far enough back for another one unless the breaker is open. */
  ghost predicate SpacedUpTo(timeout: int, state: CircuitState, lastChange: int, clock: int, times: seq<int>) {
    && lastChange <= clock
    && (forall at | at in times :: at <= lastChange)
    && (state != Open ==> forall at | at in times :: clock - at > timeout)
    && Spaced(timeout, times)
  }

  ghost predicate Spaced(gap: int, times: seq<int>) {
    forall i, j | 0 <= i < j < |times| :: times[j] - times[i] > gap
  }

  ghost predicate Inv(cfg: Settings, s: System) {
    CountersTrue(cfg, s) && SlotHeld(s) && TripsSpaced(cfg, s) && SuccessesAccounted(s)
  }

  // ---------------------------------------------------------------- one event more

  lemma LogGrows(log: seq<Event>, e: Event)
    ensures TrailingFailures(log + [e]) ==
            match e { case Recorded(Failure) => TrailingFailures(log) + 1 case Recorded(Success) => 0
                      case Reset(_) => 0 case _ => TrailingFailures(log) }
    ensures SuccessesSinceTrip(log + [e]) ==
            match e { case Recorded(Success) => SuccessesSinceTrip(log) + 1 case Trip(_) => 0
                      case _ => SuccessesSinceTrip(log) }
    ensures FailuresSinceProbing(log + [e]) ==
            match e { case Recorded(Failure) => FailuresSinceProbing(log) + 1 case Probing(_) => 0
                      case _ => FailuresSinceProbing(log) }
    ensures TripTimes(log + [e]) == TripTimes(log) + match e { case Trip(at) => [at] case _ => [] }
  {
    assert (log + [e])[..|log|] == log;
  }

  lemma ResetsGrow(cfg: Settings, log: seq<Event>, e: Event)
    requires ResetsEarned(cfg, log)
    requires e.Reset? ==> EarnsReset(cfg, log)
    ensures ResetsEarned(cfg, log + [e])
  {
    forall i | 0 <= i < |log| + 1 && (log + [e])[i].Reset? ensures EarnsReset(cfg, (log + [e])[..i]) {
      assert (log + [e])[..i] == log[..i];
      assert log[..|log|] == log;
    }
  }

  lemma SpacedGrows(gap: int, times: seq<int>, at: int)
    requires Spaced(gap, times)
    requires forall t | t in times :: at - t > gap
    ensures Spaced(gap, times + [at])
  {
    assert forall i | 0 <= i < |times| :: times[i] in times;
  }

  // ---------------------------------------------------------------- every step keeps the invariants

  lemma ArriveAccounted(cfg: Settings, s: System, id: nat)
    requires Inv(cfg, s) && id !in s.inFlight && Admits(cfg, s.cb, s.clock)
    ensures SuccessesAccounted(Arrived(cfg, s, id))
  {
    var t := Arrived(cfg, s, id);
    if t.cb.state == HalfOpen {
      assert t.inFlight - t.probes == s.inFlight - s.probes;
    }
  }

  /** Calls that are no probes, when a call is recorded. */
  lemma OldCallsLeft(inFlight: set<nat>, probes: set<nat>, id: nat)
    requires probes <= inFlight && id in inFlight
    ensures |(inFlight - {id}) - (probes - {id})| == |inFlight - probes| - (if id in probes then 0 else 1)
    ensures |(inFlight - {id}) - {}| == |inFlight - {id}|
  {
    if id in probes {
      assert (inFlight - {id}) - (probes - {id}) == inFlight - probes;
    } else {
      assert (inFlight - {id}) - (probes - {id}) == (inFlight - probes) - {id};
    }
    assert (inFlight - {id}) - {} == inFlight - {id};
  }

  lemma FinishAccounted(cfg: Settings, s: System, id: nat, outcome: Outcome)
    requires SlotHeld(s) && SuccessesAccounted(s) && id in s.inFlight
    ensures SuccessesAccounted(Finished(cfg, s, id, outcome))
  {
    OldCallsLeft(s.inFlight, s.probes, id);
    assert |s.inFlight - {id}| == |s.inFlight| - 1;
  }

  lemma ArriveKeeps(cfg: Settings, s: System, id: nat)
    requires Inv(cfg, s) && id !in s.inFlight && Admits(cfg, s.cb, s.clock)
    ensures Inv(cfg, Arrived(cfg, s, id))
  {
    LogGrows(s.log, Probing(s.clock));
    ResetsGrow(cfg, s.log, Probing(s.clock));
    LogGrows(s.log, Probe);
    ResetsGrow(cfg, s.log, Probe);
    ArriveAccounted(cfg, s, id);
  }

  lemma FinishSuccess(cfg: Settings, s: System, id: nat)
    requires CountersTrue(cfg, s) && id in s.inFlight
    ensures CountersTrue(cfg, Finished(cfg, s, id, Success))
  {
    var recorded := s.log + [Recorded(Success)];
    LogGrows(s.log, Recorded(Success));
    ResetsGrow(cfg, s.log, Recorded(Success));
    if Finished(cfg, s, id, Success).cb.state == s.cb.state {
      assert Finished(cfg, s, id, Success).log == recorded;
    } else {
      LogGrows(recorded, Reset(s.clock));
      ResetsGrow(cfg, recorded, Reset(s.clock));
    }
  }

  lemma FinishFailure(cfg: Settings, s: System, id: nat)
    requires CountersTrue(cfg, s) && id in s.inFlight
    ensures CountersTrue(cfg, Finished(cfg, s, id, Failure))
  {
    var recorded := s.log + [Recorded(Failure)];
    LogGrows(s.log, Recorded(Failure));
    ResetsGrow(cfg, s.log, Recorded(Failure));
    if Finished(cfg, s, id, Failure).cb.state == s.cb.state {
      assert Finished(cfg, s, id, Failure).log == recorded;
    } else {
      LogGrows(recorded, Trip(s.clock));
      ResetsGrow(cfg, recorded, Trip(s.clock));
    }
  }

  lemma FinishIgnored(cfg: Settings, s: System, id: nat)
    requires CountersTrue(cfg, s) && id in s.inFlight
    ensures CountersTrue(cfg, Finished(cfg, s, id, Ignored))
  {
    LogGrows(s.log, Recorded(Ignored));
    ResetsGrow(cfg, s.log, Recorded(Ignored));
    assert Finished(cfg, s, id, Ignored).log == s.log + [Recorded(Ignored)];
  }

  lemma TripSpaced(timeout: int, state: CircuitState, lastChange: int, clock: int, times: seq<int>)
    requires SpacedUpTo(timeout, state, lastChange, clock, times) && state != Open
    ensures SpacedUpTo(timeout, Open, clock, clock, times + [clock])
  {
    SpacedGrows(timeout, times, clock);
  }

  lemma FinishTrips(cfg: Settings, s: System, id: nat, outcome: Outcome)
    requires TripsSpaced(cfg, s) && id in s.inFlight
    ensures TripsSpaced(cfg, Finished(cfg, s, id, outcome))
  {
    var t := Finished(cfg, s, id, outcome);
    var recorded := s.log + [Recorded(outcome)];
    LogGrows(s.log, Recorded(outcome));
    assert TripTimes(recorded) == TripTimes(s.log);
    if t.cb.state == s.cb.state {
      assert t.log == recorded;
    } else if t.cb.state == Open {
      LogGrows(recorded, Trip(s.clock));
      TripSpaced(cfg.timeout, s.cb.state, s.cb.lastChange, s.clock, TripTimes(s.log));
    } else {
      LogGrows(recorded, Reset(s.clock));
      assert TripTimes(t.log) == TripTimes(s.log);
    }
  }

  lemma FinishSlot(cfg: Settings, s: System, id: nat, outcome: Outcome)
    requires Inv(cfg, s) && id in s.inFlight
    ensures SlotHeld(Finished(cfg, s, id, outcome))
  {
  }

  lemma TickKeeps(cfg: Settings, s: System, delay: nat)
    requires Inv(cfg, s)
    ensures Inv(cfg, s.(clock := s.clock + delay))
  {
  }

  lemma StepKeeps(cfg: Settings, s: System, a: Action)
    requires Inv(cfg, s)
    ensures Inv(cfg, Apply(cfg, s, a))
  {
    match a
    case Arrive(id) =>
      if id !in s.inFlight && Admits(cfg, s.cb, s.clock) {
        ArriveKeeps(cfg, s, id);
      }
    case Finish(id, outcome) =>
      if id in s.inFlight {
        match outcome {
          case Success => FinishSuccess(cfg, s, id);
          case Failure => FinishFailure(cfg, s, id);
          case Ignored => FinishIgnored(cfg, s, id);
        }
        FinishTrips(cfg, s, id, outcome);
        FinishSlot(cfg, s, id, outcome);
        FinishAccounted(cfg, s, id, outcome);
      }
    case Tick(delay) => TickKeeps(cfg, s, delay);
  }

  lemma {:induction false} RunKeeps(cfg: Settings, now: int, run: seq<Action>)
    ensures Inv(cfg, Exec(cfg, now, run))
  {
    if run != [] {
      RunKeeps(cfg, now, run[..|run| - 1]);
      StepKeeps(cfg, Exec(cfg, now, run[..|run| - 1]), run[|run| - 1]);
    }
  }
}
