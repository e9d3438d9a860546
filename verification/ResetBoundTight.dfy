/** The number of probes a reset needs is reached: late results of calls that a trip left in flight count
    like those of probes, so enough of them close the breaker while its only probe is unrecorded. */
module ResetBoundTight {
  import opened CircuitBreaker
  import opened BreakerRuns
  import opened ProbeBoundTight

  /** Half-open, with `i` of the `n` calls that the trip left in flight, from id `t` on, recorded as
      successes, and one probe. */
  ghost predicate LateWon(s: System, t: nat, n: nat, i: nat) {
    && s.cb.state == HalfOpen && s.cb.successes == i && s.late == n && s.probeWins == 0
    && s.inFlight == Ids(t + i, t + n + 1) && s.probes == {t + n}
  }

  /** Half-open, with all of them and `j` probes recorded as successes, and one more probe in flight. */
  ghost predicate ProbesWon(s: System, t: nat, n: nat, j: nat) {
    && s.cb.state == HalfOpen && s.cb.successes == n + j && s.late == n && s.probeWins == j
    && s.inFlight == {t + n + j} && s.probes == {t + n + j}
  }

  lemma NoneLateYet(cfg: Settings, s: System, t: nat, n: nat, delay: nat)
    requires s.cb.state == Open && s.cb.successes == 0 && s.late == n && s.probeWins == 0
    requires Crowded(Twice(cfg, s, Tick(delay), Arrive(t + n)), t, n, 0)
    ensures LateWon(Twice(cfg, s, Tick(delay), Arrive(t + n)), t, n, 0)
  {
    IdsAt(t + n, t + n + 1);
  }

  lemma OneLate(cfg: Settings, s: System, t: nat, n: nat, i: nat)
    requires LateWon(s, t, n, i) && i < n && i + 1 < AtLeastOne(cfg.successThreshold)
    ensures LateWon(Apply(cfg, s, Finish(t + i, Success)), t, n, i + 1)
  {
    IdsAt(t + i, t + n + 1);
    assert Ids(t + i, t + n + 1) - {t + i} == Ids(t + i + 1, t + n + 1);
  }

  lemma {:induction false} LateWins(cfg: Settings, now: int, t: nat, n: nat, i: nat) returns (s: System)
    requires t == AtLeastOne(cfg.errorThreshold) && i <= n && i < AtLeastOne(cfg.successThreshold)
    ensures Reachable(cfg, now, s) && LateWon(s, t, n, i)
  {
    if i == 0 {
      var tripped := Failures(cfg, now, t, t + n, t);
      var delay: nat := AtLeastOne(cfg.timeout + 1);
      Reopen(cfg, tripped, t, n, delay);
      ReachableTwice(cfg, now, tripped, Tick(delay), Arrive(t + n));
      IdsSize(t, t + n);
      NoneLateYet(cfg, tripped, t, n, delay);
      s := Twice(cfg, tripped, Tick(delay), Arrive(t + n));
    } else {
      var k := i - 1;
      var before := LateWins(cfg, now, t, n, k);
      OneLate(cfg, before, t, n, k);
      ReachableStep(cfg, now, before, Finish(t + k, Success));
      s := Apply(cfg, before, Finish(t + k, Success));
    }
  }

  /** A probe succeeds, and the next one arrives. */
  lemma NextProbe(cfg: Settings, s: System, t: nat, n: nat, j: nat)
    requires ProbesWon(s, t, n, j) && n + j + 1 < AtLeastOne(cfg.successThreshold)
    ensures ProbesWon(Twice(cfg, s, Finish(t + n + j, Success), Arrive(t + n + j + 1)), t, n, j + 1)
  {
    var freed := Apply(cfg, s, Finish(t + n + j, Success));
    assert freed.inFlight == {} && freed.probes == {} && freed.cb.state == HalfOpen;
  }

  lemma FirstProbeLeft(s: System, t: nat, n: nat)
    requires LateWon(s, t, n, n)
    ensures ProbesWon(s, t, n, 0)
  {
    IdsAt(t + n, t + n + 1);
  }

  lemma {:induction false} ProbesWin(cfg: Settings, now: int, t: nat, n: nat, j: nat) returns (s: System)
    requires t == AtLeastOne(cfg.errorThreshold) && n + j < AtLeastOne(cfg.successThreshold)
    ensures Reachable(cfg, now, s) && ProbesWon(s, t, n, j)
  {
    if j == 0 {
      s := LateWins(cfg, now, t, n, n);
      FirstProbeLeft(s, t, n);
    } else {
      var i := j - 1;
      var before := ProbesWin(cfg, now, t, n, i);
      NextProbe(cfg, before, t, n, i);
      ReachableTwice(cfg, now, before, Finish(t + n + i, Success), Arrive(t + n + i + 1));
      s := Twice(cfg, before, Finish(t + n + i, Success), Arrive(t + n + i + 1));
    }
  }

  /** The success of call `id` closes the breaker, `n` calls were left by the trip, and `wins` probes
      succeeded. */
  ghost predicate Resets(cfg: Settings, s: System, id: nat, n: nat, wins: nat) {
    && s.cb.state == HalfOpen && id in s.inFlight
    && var t := Apply(cfg, s, Finish(id, Success));
       t.cb.state == Closed && t.late == n && t.probeWins == wins
  }

  /** For every number of calls left by the trip, up to the threshold, a reset happens with no more probes
      than the bound says; with as many as the threshold, with none, while the only probe is unrecorded. */
  lemma LateCallsReplaceProbes(cfg: Settings, now: int, n: nat) returns (s: System, id: nat)
    requires n <= AtLeastOne(cfg.successThreshold)
    ensures Reachable(cfg, now, s) && Resets(cfg, s, id, n, AtLeastOne(cfg.successThreshold) - n)
    ensures n == AtLeastOne(cfg.successThreshold) ==> s.probes != {} && id !in s.probes
  {
    var t: nat, limit: nat := AtLeastOne(cfg.errorThreshold), AtLeastOne(cfg.successThreshold);
    if n == limit {
      s := LateWins(cfg, now, t, n, n - 1);
      id := t + n - 1;
    } else {
      s := ProbesWin(cfg, now, t, n, limit - n - 1);
      id := t + limit - 1;
    }
  }
}
