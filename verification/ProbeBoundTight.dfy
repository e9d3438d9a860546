/** The bound on concurrent probes is reached: with `n` stale calls a half-open period can have `n + 1`
    probes in flight, because recording a stale call frees the slot that a probe still uses. */
module ProbeBoundTight {
  import opened CircuitBreaker
  import opened BreakerRuns

  ghost predicate Reachable(cfg: Settings, now: int, s: System) {
    exists run: seq<Action> :: Exec(cfg, now, run) == s
  }

  lemma ReachableStep(cfg: Settings, now: int, s: System, a: Action)
    requires Reachable(cfg, now, s)
    ensures Reachable(cfg, now, Apply(cfg, s, a))
  {
    var run :| Exec(cfg, now, run) == s;
    assert (run + [a])[..|run|] == run;
    assert Exec(cfg, now, run + [a]) == Apply(cfg, s, a);
  }

  function Twice(cfg: Settings, s: System, a: Action, b: Action): System {
    Apply(cfg, Apply(cfg, s, a), b)
  }

  lemma ReachableTwice(cfg: Settings, now: int, s: System, a: Action, b: Action)
    requires Reachable(cfg, now, s)
    ensures Reachable(cfg, now, Twice(cfg, s, a, b))
  {
    ReachableStep(cfg, now, s, a);
    ReachableStep(cfg, now, Apply(cfg, s, a), b);
  }

  predicate Between(lo: nat, i: nat, hi: nat) {
    lo <= i < hi
  }

  /** The call ids from `lo` to `hi - 1`. */
  function Ids(lo: nat, hi: nat): set<nat> {
    set i: nat | i < hi && Between(lo, i, hi)
  }

  lemma IdsAt(lo: nat, hi: nat)
    requires lo < hi
    ensures Ids(lo, hi) == Ids(lo, hi - 1) + {hi - 1} == Ids(lo + 1, hi) + {lo}
    ensures Ids(lo, lo) == {}
  {
  }

  lemma {:induction false} IdsSize(lo: nat, hi: nat)
    requires lo <= hi
    ensures |Ids(lo, hi)| == hi - lo
  {
    if lo < hi {
      IdsSize(lo, hi - 1);
      IdsAt(lo, hi);
    }
  }

  /** Calls 0 to k - 1 arrive at a fresh breaker. */
  lemma {:induction false} Arrivals(cfg: Settings, now: int, k: nat) returns (s: System)
    ensures Reachable(cfg, now, s) && s == Start(now).(inFlight := Ids(0, k))
  {
    if k == 0 {
      s := Start(now);
      assert Exec(cfg, now, []) == s;
    } else {
      var before := Arrivals(cfg, now, k - 1);
      ReachableStep(cfg, now, before, Arrive(k - 1));
      s := Apply(cfg, before, Arrive(k - 1));
      IdsAt(0, k);
    }
  }

  /** The first `j` of calls 0 to k - 1 have failed; the `t`-th failure trips the breaker. */
  ghost predicate Failed(s: System, now: int, t: nat, k: nat, j: nat) {
    && s.inFlight == Ids(j, k) && s.clock == s.cb.lastChange == now && s.cb.failures == j
    && s.cb.state == (if j < t then Closed else Open)
    && (j == t ==> s.cb.successes == 0 && s.late == |Ids(t, k)| && s.probeWins == 0)
  }

  lemma OneFailure(cfg: Settings, s: System, now: int, t: nat, k: nat, j: nat)
    requires t == AtLeastOne(cfg.errorThreshold) && j < k && j < t
    requires Failed(s, now, t, k, j)
    ensures Failed(Apply(cfg, s, Finish(j, Failure)), now, t, k, j + 1)
  {
    IdsAt(j, k);
    assert Ids(j, k) - {j} == Ids(j + 1, k);
  }

  lemma {:induction false} Failures(cfg: Settings, now: int, t: nat, k: nat, j: nat) returns (s: System)
    requires t == AtLeastOne(cfg.errorThreshold) && j <= k && j <= t
    ensures Reachable(cfg, now, s) && Failed(s, now, t, k, j)
  {
    if j == 0 {
      s := Arrivals(cfg, now, k);
    } else {
      var i := j - 1;
      var before := Failures(cfg, now, t, k, i);
      OneFailure(cfg, before, now, t, k, i);
      ReachableStep(cfg, now, before, Finish(i, Failure));
      s := Apply(cfg, before, Finish(i, Failure));
    }
  }

  /** A half-open period that began with `n` stale calls, from id `t` on, of which `j` have since been
      recorded and replaced by probes. */
  ghost predicate Crowded(s: System, t: nat, n: nat, j: nat) {
    && s.cb.state == HalfOpen && s.cb.halfOpenInFlight && s.stale == n
    && s.inFlight == Ids(t + j, t + n + j + 1) && s.probes == Ids(t + n, t + n + j + 1)
  }

  lemma FirstProbe(cfg: Settings, s: System, id: nat)
    requires s.cb.state == Open && Admits(cfg, s.cb, s.clock) && id !in s.inFlight
    ensures var probing := Arrived(cfg, s, id);
            && probing.cb.state == HalfOpen && probing.cb.halfOpenInFlight && probing.stale == |s.inFlight|
            && probing.inFlight == s.inFlight + {id} && probing.probes == {id}
  {
  }

  lemma CrowdedByOne(s: System, t: nat, n: nat)
    requires s.cb.state == HalfOpen && s.cb.halfOpenInFlight && s.stale == n
    requires s.inFlight == Ids(t, t + n) + {t + n} && s.probes == {t + n}
    ensures Crowded(s, t, n, 0)
  {
    IdsAt(t, t + n + 1);
    IdsAt(t + n, t + n + 1);
  }

  /** After the timeout the first probe starts. */
  lemma Reopen(cfg: Settings, s: System, t: nat, n: nat, delay: nat)
    requires s.cb.state == Open && s.clock == s.cb.lastChange && s.inFlight == Ids(t, t + n)
    requires delay > cfg.timeout
    ensures Crowded(Twice(cfg, s, Tick(delay), Arrive(t + n)), t, n, 0)
  {
    var waited := Apply(cfg, s, Tick(delay));
    assert t + n !in waited.inFlight;
    assert Apply(cfg, waited, Arrive(t + n)) == Arrived(cfg, waited, t + n);
    IdsSize(t, t + n);
    FirstProbe(cfg, waited, t + n);
    CrowdedByOne(Arrived(cfg, waited, t + n), t, n);
  }

  /** Recording a stale call lets one more probe in. */
  lemma Swap(cfg: Settings, s: System, t: nat, n: nat, j: nat)
    requires j < n && Crowded(s, t, n, j)
    ensures Crowded(Twice(cfg, s, Finish(t + j, Ignored), Arrive(t + n + j + 1)), t, n, j + 1)
  {
    var freed := Apply(cfg, s, Finish(t + j, Ignored));
    assert freed.cb == s.cb.(halfOpenInFlight := false);
    assert freed.inFlight == Ids(t + j + 1, t + n + j + 1);
    assert freed.probes == Ids(t + n, t + n + j + 1);
  }

  lemma {:induction false} Swaps(cfg: Settings, now: int, t: nat, n: nat, j: nat) returns (s: System)
    requires t == AtLeastOne(cfg.errorThreshold) && j <= n
    ensures Reachable(cfg, now, s) && Crowded(s, t, n, j)
  {
    if j == 0 {
      var tripped := Failures(cfg, now, t, t + n, t);
      var delay: nat := AtLeastOne(cfg.timeout + 1);
      Reopen(cfg, tripped, t, n, delay);
      ReachableTwice(cfg, now, tripped, Tick(delay), Arrive(t + n));
      s := Twice(cfg, tripped, Tick(delay), Arrive(t + n));
    } else {
      var i := j - 1;
      var before := Swaps(cfg, now, t, n, i);
      Swap(cfg, before, t, n, i);
      ReachableTwice(cfg, now, before, Finish(t + i, Ignored), Arrive(t + n + i + 1));
      s := Twice(cfg, before, Finish(t + i, Ignored), Arrive(t + n + i + 1));
    }
  }

  /** A half-open period with `n` stale calls at its start and one probe more than that in flight. */
  ghost predicate Overfull(cfg: Settings, now: int, s: System, n: nat) {
    Reachable(cfg, now, s) && s.cb.state == HalfOpen && s.stale == n && |s.probes| == n + 1
  }

  /** The bound of one more than the stale calls is reached for every number of stale calls, so the
      single-probe guarantee fails as soon as there is one. */
  lemma StaleCallsAdmitMoreProbes(cfg: Settings, now: int, n: nat)
    ensures exists s :: Overfull(cfg, now, s, n)
  {
    var t: nat := AtLeastOne(cfg.errorThreshold);
    var s := Swaps(cfg, now, t, n, n);
    IdsSize(t + n, t + n + n + 1);
    assert Overfull(cfg, now, s, n);
  }
}
