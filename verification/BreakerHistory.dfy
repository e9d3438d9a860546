/** The breaker's fields are its history, read from the events alone: over every run, state, counters, time of
    the last change and probe slot are functions of the log, and so are admission, tripping and closing. */
module BreakerHistory {
  import opened CircuitBreaker
  import opened BreakerRuns
  import opened BreakerTheorems

  // ---------------------------------------------------------------- reading the history

  /** The state after the last change in the log. */
  function StateOf(log: seq<Event>): CircuitState {
    if log == [] then Closed
    else
      match log[|log| - 1]
      case Trip(_) => Open
      case Probing(_) => HalfOpen
      case Reset(_) => Closed
      case _ => StateOf(log[..|log| - 1])
  }

  /** When the last change was, `start` if there was none. */
  function ChangedAt(start: int, log: seq<Event>): int {
    if log == [] then start
    else
      match log[|log| - 1]
      case Trip(at) => at
      case Probing(at) => at
      case Reset(at) => at
      case _ => ChangedAt(start, log[..|log| - 1])
  }

  /** The last probe let in has seen no result recorded since. */
  predicate ProbeOut(log: seq<Event>) {
    log != [] && (log[|log| - 1].Probing? || log[|log| - 1].Probe?)
  }

  /** Counted failures since the last reset, and while closed since the last success. */
  function FailuresKept(log: seq<Event>): nat {
    if log == [] then 0
    else
      var before := log[..|log| - 1];
      match log[|log| - 1]
      case Recorded(Failure) => FailuresKept(before) + 1
      case Recorded(Success) => if StateOf(before) == Closed then 0 else FailuresKept(before)
      case Reset(_) => 0
      case _ => FailuresKept(before)
  }

  function SuccessesKept(log: seq<Event>): nat {
    if StateOf(log) == Closed then 0 else SuccessesSinceTrip(log)
  }

  function FieldsOf(start: int, log: seq<Event>): Fields {
    Fields(StateOf(log), FailuresKept(log), SuccessesKept(log), ChangedAt(start, log), ProbeOut(log))
  }

  // ---------------------------------------------------------------- every step keeps the reading

  ghost predicate ReadsAs(start: int, f: Fields, log: seq<Event>) {
    && f.state == StateOf(log) && f.failures == FailuresKept(log)
    && f.lastChange == ChangedAt(start, log) && f.halfOpenInFlight == ProbeOut(log)
  }

  ghost predicate ReadsTrue(start: int, s: System) {
    ReadsAs(start, s.cb, s.log)
  }

  lemma ReadsGrow(start: int, log: seq<Event>, e: Event)
    ensures StateOf(log + [e]) ==
            match e { case Trip(_) => Open case Probing(_) => HalfOpen case Reset(_) => Closed case _ => StateOf(log) }
    ensures ChangedAt(start, log + [e]) ==
            match e { case Trip(at) => at case Probing(at) => at case Reset(at) => at case _ => ChangedAt(start, log) }
    ensures FailuresKept(log + [e]) ==
            match e { case Recorded(Failure) => FailuresKept(log) + 1
                      case Recorded(Success) => if StateOf(log) == Closed then 0 else FailuresKept(log)
                      case Reset(_) => 0 case _ => FailuresKept(log) }
    ensures ProbeOut(log + [e]) <==> e.Probing? || e.Probe?
  {
    assert (log + [e])[..|log|] == log;
  }

  lemma ArriveReads(cfg: Settings, start: int, s: System, id: nat)
    requires ReadsTrue(start, s) && Admits(cfg, s.cb, s.clock)
    ensures ReadsTrue(start, Arrived(cfg, s, id))
  {
    ReadsGrow(start, s.log, Probing(s.clock));
    ReadsGrow(start, s.log, Probe);
  }

  lemma RecordReads(cfg: Settings, start: int, f: Fields, log: seq<Event>, outcome: Outcome, now: int)
    requires ReadsAs(start, f, log)
    ensures var g := AfterRecord(cfg, f, outcome, now);
            && (g.state == f.state ==> ReadsAs(start, g, log + [Recorded(outcome)]))
            && (g.state != f.state && g.state == Open ==> ReadsAs(start, g, log + [Recorded(outcome)] + [Trip(now)]))
            && (g.state != f.state && g.state != Open ==> ReadsAs(start, g, log + [Recorded(outcome)] + [Reset(now)]))
  {
    var recorded := log + [Recorded(outcome)];
    ReadsGrow(start, log, Recorded(outcome));
    ReadsGrow(start, recorded, Trip(now));
    ReadsGrow(start, recorded, Reset(now));
  }

  lemma FinishReads(cfg: Settings, start: int, s: System, id: nat, outcome: Outcome)
    requires ReadsTrue(start, s)
    ensures ReadsTrue(start, Finished(cfg, s, id, outcome))
  {
    RecordReads(cfg, start, s.cb, s.log, outcome, s.clock);
    assert s.log + [Recorded(outcome)] + [] == s.log + [Recorded(outcome)];
  }

  lemma {:induction false} RunReads(cfg: Settings, now: int, run: seq<Action>)
    ensures ReadsTrue(now, Exec(cfg, now, run))
  {
    if run != [] {
      var s, a := Exec(cfg, now, run[..|run| - 1]), run[|run| - 1];
      RunReads(cfg, now, run[..|run| - 1]);
      match a {
        case Arrive(id) => if id !in s.inFlight && Admits(cfg, s.cb, s.clock) { ArriveReads(cfg, now, s, id); }
        case Finish(id, outcome) => if id in s.inFlight { FinishReads(cfg, now, s, id, outcome); }
        case Tick(_) =>
      }
    }
  }

  // ---------------------------------------------------------------- theorems

  /** Over every run, however calls overlap, all fields are what the history says. */
  lemma FieldsAreHistory(cfg: Settings, now: int, run: seq<Action>)
    ensures Exec(cfg, now, run).cb == FieldsOf(now, Exec(cfg, now, run).log)
  {
    RunReads(cfg, now, run);
    RunKeeps(cfg, now, run);
  }

  lemma {:induction false} OpenSinceTrip(start: int, log: seq<Event>)
    requires StateOf(log) == Open
    ensures TripTimes(log) != [] && ChangedAt(start, log) == TripTimes(log)[|TripTimes(log)| - 1]
  {
    if !log[|log| - 1].Trip? {
      OpenSinceTrip(start, log[..|log| - 1]);
    }
  }

  /** Whatever is recorded meanwhile, an open breaker admits the next call exactly when more than the timeout
      has passed since it last tripped: late results of old calls do not prolong the outage. */
  lemma OpenAdmitsByLastTrip(cfg: Settings, now: int, run: seq<Action>)
    requires Exec(cfg, now, run).cb.state == Open
    ensures var s := Exec(cfg, now, run);
            var times := TripTimes(s.log);
            && times != [] && s.cb.lastChange == times[|times| - 1]
            && (Admits(cfg, s.cb, s.clock) <==> s.clock - times[|times| - 1] > cfg.timeout)
  {
    RunReads(cfg, now, run);
    OpenSinceTrip(now, Exec(cfg, now, run).log);
  }

  /** What recording a result does, said from the history: it trips the breaker exactly when it is a counted
      failure that fills the threshold of a closed breaker, or any counted failure of a half-open one; it
      resets it exactly when it is a success that fills the success threshold of a half-open one. */
  lemma RecordingExactly(cfg: Settings, now: int, run: seq<Action>, id: nat, outcome: Outcome)
    requires id in Exec(cfg, now, run).inFlight
    ensures var s := Exec(cfg, now, run);
            var t := Apply(cfg, s, Finish(id, outcome));
            var trips := outcome == Failure &&
              ((StateOf(s.log) == Closed && TrailingFailures(s.log) + 1 >= cfg.errorThreshold) ||
               StateOf(s.log) == HalfOpen);
            var resets := outcome == Success && StateOf(s.log) == HalfOpen &&
              SuccessesSinceTrip(s.log) + 1 >= cfg.successThreshold;
            t.log == s.log + [Recorded(outcome)] +
                     (if trips then [Trip(s.clock)] else if resets then [Reset(s.clock)] else [])
  {
    RunReads(cfg, now, run);
    CountersRefineHistory(cfg, now, run);
    var s := Exec(cfg, now, run);
    assert s.log + [Recorded(outcome)] + [] == s.log + [Recorded(outcome)];
  }

  /** What an arrival does, said from the history: a closed breaker admits it, an open one after the timeout,
      which then is half-open, and a half-open one if no probe is out. */
  lemma ArrivingExactly(cfg: Settings, now: int, run: seq<Action>, id: nat)
    requires id !in Exec(cfg, now, run).inFlight
    ensures var s := Exec(cfg, now, run);
            var t := Apply(cfg, s, Arrive(id));
            match StateOf(s.log)
            case Closed => t.inFlight == s.inFlight + {id} && t.log == s.log
            case Open =>
              if s.clock - ChangedAt(now, s.log) > cfg.timeout
              then t.inFlight == s.inFlight + {id} && t.log == s.log + [Probing(s.clock)]
              else t == s
            case HalfOpen => if ProbeOut(s.log) then t == s else t.inFlight == s.inFlight + {id} && t.log == s.log + [Probe]
  {
    RunReads(cfg, now, run);
  }
}
