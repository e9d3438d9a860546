/** The circuit breaker of internal/fault/fault.go: two short critical sections, `Allow` before an
    operation and `Record` after it. Times are integers in one unit; each section reads the clock once. */
module CircuitBreaker {

  datatype CircuitState = Closed | Open | HalfOpen

  datatype Settings = Settings(errorThreshold: int, successThreshold: int, timeout: int)

  /** What `record` sees of an operation: no error, an error that `IsFailure` counts, or another one. */
  datatype Outcome = Success | Failure | Ignored

  /** The fields that the mutex protects. */
  datatype Fields = Fields(state: CircuitState, failures: int, successes: int, lastChange: int, halfOpenInFlight: bool)

  function Fresh(now: int): Fields {
    Fields(Closed, 0, 0, now, false)
  }

  predicate Admits(cfg: Settings, f: Fields, now: int) {
    match f.state
    case Closed => true
    case Open => now - f.lastChange > cfg.timeout
    case HalfOpen => !f.halfOpenInFlight
  }

  function AfterAllow(cfg: Settings, f: Fields, now: int): Fields {
    if !Admits(cfg, f, now) || f.state == Closed then f
    else if f.state == Open then f.(state := HalfOpen, lastChange := now, halfOpenInFlight := true)
    else f.(halfOpenInFlight := true)
  }

  function Tripped(f: Fields, now: int): Fields {
    f.(state := Open, lastChange := now, successes := 0)
  }

  function AfterRecord(cfg: Settings, f: Fields, outcome: Outcome, now: int): Fields {
    var g := f.(halfOpenInFlight := false);
    match outcome
    case Ignored => g
    case Failure =>
      var h := g.(failures := g.failures + 1);
      if (h.state == Closed && h.failures >= cfg.errorThreshold) || h.state == HalfOpen then Tripped(h, now) else h
    case Success =>
      if g.state == Closed then g.(failures := 0)
      else
        var h := g.(successes := g.successes + 1);
        if h.state == HalfOpen && h.successes >= cfg.successThreshold
        then Fields(Closed, 0, 0, now, false) else h
  }

  class Breaker {
    const cfg: Settings
    var state: CircuitState
    var failures: int
    var successes: int
    var lastChange: int
    var halfOpenInFlight: bool

    ghost function View(): Fields
      reads this
    {
      Fields(state, failures, successes, lastChange, halfOpenInFlight)
    }

    constructor (cfg: Settings, now: int)
      ensures this.cfg == cfg && View() == Fresh(now)
    {
      this.cfg := cfg;
      state, failures, successes, lastChange, halfOpenInFlight := Closed, 0, 0, now, false;
    }

    method Allow(now: int) returns (admitted: bool)
      modifies this
      ensures admitted <==> Admits(cfg, old(View()), now)
      ensures View() == AfterAllow(cfg, old(View()), now)
    {
      match state {
        case Open =>
          if now - lastChange <= cfg.timeout {
            return false;
          }
          state, lastChange := HalfOpen, now;
          halfOpenInFlight := true;
        case HalfOpen =>
          if halfOpenInFlight {
            return false;
          }
          halfOpenInFlight := true;
        case Closed =>
      }
      return true;
    }

    method Record(outcome: Outcome, now: int)
      modifies this
      ensures View() == AfterRecord(cfg, old(View()), outcome, now)
    {
      halfOpenInFlight := false;
      if outcome == Ignored {
        return;
      }
      if outcome == Failure {
        failures := failures + 1;
        if state == Closed && failures >= cfg.errorThreshold {
          Trip(now);
          return;
        }
        if state == HalfOpen {
          Trip(now);
          return;
        }
        return;
      }
      if state == Closed {
        failures := 0;
        return;
      }
      successes := successes + 1;
      if state == HalfOpen && successes >= cfg.successThreshold {
        state, lastChange, failures, successes := Closed, now, 0, 0;
      }
    }

    method Trip(now: int)
      modifies this
      ensures View() == Tripped(old(View()), now)
    {
      state, lastChange, successes := Open, now, 0;
    }
  }
}
