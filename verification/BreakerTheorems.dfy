/** What the breaker guarantees over every run, however calls overlap. */
module BreakerTheorems {
  import opened CircuitBreaker
  import opened BreakerRuns

  /** In a half-open period, the calls in flight (old ones and probes together) never exceed one more than
      the calls that were in flight when the period began; with none, there is a single probe, and it
      holds the slot. */
  lemma ProbeBound(cfg: Settings, now: int, run: seq<Action>)
    ensures var s := Exec(cfg, now, run);
            s.cb.state == HalfOpen ==>
              && |s.probes| <= |s.inFlight| <= s.stale + 1
              && (s.stale == 0 && s.inFlight != {} ==> s.cb.halfOpenInFlight && s.inFlight == s.probes == {s.prober})
  {
    RunKeeps(cfg, now, run);
    var s := Exec(cfg, now, run);
    if s.cb.state == HalfOpen {
      SubsetSize(s.probes, s.inFlight);
      if s.stale == 0 && s.inFlight != {} {
        OneElement(s.inFlight, s.prober);
      }
    }
  }

  lemma {:induction false} SubsetSize(a: set<nat>, b: set<nat>)
    requires a <= b
    ensures |a| <= |b|
  {
    if a != {} {
      var x :| x in a;
      SubsetSize(a - {x}, b - {x});
    }
  }

  lemma OneElement(a: set<nat>, x: nat)
    requires a != {} && |a| <= 1
    requires |a| == 1 ==> x in a
    ensures a == {x}
  {
    var y :| y in a;
    assert |a - {y}| == |a| - 1;
    assert a == {y};
  }

  /** Over every run, the counters and the state are what the recorded history says: in Closed `failures`
      is the trailing run of counted failures, elsewhere `successes` counts the successes since the trip,
      and the breaker is closed exactly while `failures` is under the threshold. */
  lemma CountersRefineHistory(cfg: Settings, now: int, run: seq<Action>)
    ensures var s := Exec(cfg, now, run);
            && (s.cb.state == Closed <==> s.cb.failures < AtLeastOne(cfg.errorThreshold))
            && (s.cb.state == Closed ==> s.cb.failures == TrailingFailures(s.log) && s.cb.successes == 0)
            && (s.cb.state != Closed ==> s.cb.successes == SuccessesSinceTrip(s.log))
  {
    RunKeeps(cfg, now, run);
  }

  /** Every reset of every run came after enough successes since the last trip, with no counted failure
      recorded since the breaker went half-open. */
  lemma ClosesOnlyWhenEarned(cfg: Settings, now: int, run: seq<Action>, i: nat)
    requires i < |Exec(cfg, now, run).log| && Exec(cfg, now, run).log[i].Reset?
    ensures EarnsReset(cfg, Exec(cfg, now, run).log[..i])
  {
    RunKeeps(cfg, now, run);
  }

  /** How many probes have to succeed: every reset of every run needs as many successes of probes as the
      threshold exceeds the calls that the trip left in flight and that have since been recorded. With no
      call left in flight by the trip, all successes are the probes'. */
  lemma ResetNeedsProbes(cfg: Settings, now: int, run: seq<Action>, a: Action)
    requires Exec(cfg, now, run).cb.state == HalfOpen && Apply(cfg, Exec(cfg, now, run), a).cb.state == Closed
    ensures var t := Apply(cfg, Exec(cfg, now, run), a);
            t.probeWins >= AtLeastOne(cfg.successThreshold) - (t.late - |t.inFlight - t.probes|)
  {
    RunKeeps(cfg, now, run);
    var s := Exec(cfg, now, run);
    var t := Apply(cfg, s, a);
    assert a.Finish? && a.outcome == Success && a.id in s.inFlight;
    if a.id in s.probes {
      assert t.inFlight - t.probes == s.inFlight - s.probes;
    } else {
      assert t.inFlight - t.probes == (s.inFlight - s.probes) - {a.id};
    }
  }

  /** A call is refused only inside the timeout, or while the call that took the probe slot is unrecorded. */
  lemma RefusedOnlyForCause(cfg: Settings, now: int, run: seq<Action>)
    ensures var s := Exec(cfg, now, run);
            !Admits(cfg, s.cb, s.clock) <==>
              || (s.cb.state == Open && s.clock - s.cb.lastChange <= cfg.timeout)
              || (s.cb.state == HalfOpen && s.cb.halfOpenInFlight && s.prober in s.inFlight)
  {
    RunKeeps(cfg, now, run);
  }

  function Finishes(results: seq<(nat, Outcome)>): seq<Action> {
    seq(|results|, i requires 0 <= i < |results| => Finish(results[i].0, results[i].1))
  }

  lemma {:induction false} ExecConcat(cfg: Settings, now: int, a: seq<Action>, b: seq<Action>)
    ensures b == [] ==> Exec(cfg, now, a + b) == Exec(cfg, now, a)
    ensures b != [] ==> Exec(cfg, now, a + b) == Apply(cfg, Exec(cfg, now, a + b[..|b| - 1]), b[|b| - 1])
  {
    if b == [] {
      assert a + b == a;
    } else {
      assert (a + b)[..|a + b| - 1] == a + b[..|b| - 1];
    }
  }

  lemma FinishDrains(cfg: Settings, s: System, id: nat, outcome: Outcome)
    ensures Apply(cfg, s, Finish(id, outcome)).inFlight == s.inFlight - {id}
  {
  }

  /** Recording results only takes calls out of flight. */
  lemma {:induction false} FinishesDrain(cfg: Settings, now: int, run: seq<Action>, results: seq<(nat, Outcome)>)
    ensures Exec(cfg, now, run + Finishes(results)).inFlight ==
            Exec(cfg, now, run).inFlight - (set i | 0 <= i < |results| :: results[i].0)
    decreases |results|
  {
    ExecConcat(cfg, now, run, Finishes(results));
    if results != [] {
      var n := |results| - 1;
      FinishesDrain(cfg, now, run, results[..n]);
      assert Finishes(results)[..n] == Finishes(results[..n]);
      FinishDrains(cfg, Exec(cfg, now, run + Finishes(results[..n])), results[n].0, results[n].1);
      assert (set i | 0 <= i < |results| :: results[i].0) ==
             (set i | 0 <= i < n :: results[..n][i].0) + {results[n].0};
    }
  }

  /** The breaker never wedges: from any reachable state, once the calls in flight are recorded, with
      whatever results and in whatever order, and more than the timeout passes, the next call is admitted. */
  lemma NeverWedges(cfg: Settings, now: int, run: seq<Action>, results: seq<(nat, Outcome)>, delay: nat)
    requires Exec(cfg, now, run).inFlight <= set i | 0 <= i < |results| :: results[i].0
    requires delay > cfg.timeout
    ensures var s := Exec(cfg, now, run + Finishes(results) + [Tick(delay)]);
            s.inFlight == {} && Admits(cfg, s.cb, s.clock)
  {
    var drained := run + Finishes(results);
    FinishesDrain(cfg, now, run, results);
    ExecConcat(cfg, now, drained, [Tick(delay)]);
    assert drained + [Tick(delay)][..0] == drained;
    RunKeeps(cfg, now, drained);
    RunKeeps(cfg, now, drained + [Tick(delay)]);
  }

  /** Over every run, any two trips are more than the timeout apart. */
  lemma TripsAreSpaced(cfg: Settings, now: int, run: seq<Action>)
    ensures Spaced(cfg.timeout, TripTimes(Exec(cfg, now, run).log))
  {
    RunKeeps(cfg, now, run);
  }

  /** So `n` trips after a first one take more than `n` timeouts. */
  lemma TripRate(cfg: Settings, now: int, run: seq<Action>, first: nat, n: nat)
    requires first + n < |TripTimes(Exec(cfg, now, run).log)|
    ensures var times := TripTimes(Exec(cfg, now, run).log);
            times[first + n] - times[first] >= n * cfg.timeout + n
  {
    TripsAreSpaced(cfg, now, run);
    SpacedRate(cfg.timeout, TripTimes(Exec(cfg, now, run).log), first, n);
  }

  lemma {:induction false} SpacedRate(gap: int, times: seq<int>, first: nat, n: nat)
    requires Spaced(gap, times) && first + n < |times|
    ensures times[first + n] - times[first] >= n * gap + n
  {
    if n > 0 {
      SpacedRate(gap, times, first, n - 1);
      assert n * gap == (n - 1) * gap + gap;
    }
  }
}
