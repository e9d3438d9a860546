/** The retry loop of internal/fault/fault.go. The operation and the context are oracles: `outcome(k)` is
    what the k-th call returns, `canceled(k)` whether the context ends during the wait after it. */
module Retry {
  import opened DomainErrors

  datatype Policy = Policy(initialBackoff: int, maxBackoff: int, factor: real, maxAttempts: int)

  /** How the loop ends: with what call `attempt` returned, or canceled while waiting after it. */
  datatype Ending = Returned(attempt: nat) | CanceledAfter(attempt: nat)

  function MaxAttempts(p: Policy): nat {
    if p.maxAttempts > 1 then p.maxAttempts else 1
  }

  /** Conversion of a float to a duration: toward zero. */
  function Truncated(x: real): int {
    if x >= 0.0 then x.Floor else -(-x).Floor
  }

  function Min(a: int, b: int): int {
    if a <= b then a else b
  }

  function Times(a: real, b: real): real {
    a * b
  }

  function NextBackoff(p: Policy, backoff: int): int {
    Min(Truncated(Times(backoff as real, p.factor)), p.maxBackoff)
  }

  /** The wait after the k-th call, `k >= 1`. */
  function Backoff(p: Policy, k: nat): int {
    if k <= 1 then p.initialBackoff else NextBackoff(p, Backoff(p, k - 1))
  }

  /** The k-th call asks for another one. */
  ghost predicate Again(outcome: nat -> Option<Err>, shouldRetry: Err -> bool, k: nat) {
    outcome(k).Some? && shouldRetry(outcome(k).value)
  }

  /** The loop goes on after the k-th call. */
  ghost predicate GoesOn(outcome: nat -> Option<Err>, shouldRetry: Err -> bool, canceled: nat -> bool, k: nat) {
    Again(outcome, shouldRetry, k) && !canceled(k)
  }

  /** The ending that the outcomes dictate: every call before the last asked for another one and its wait
      was not cut short; the last one settles the matter, was the last allowed, or its wait was cut short. */
  ghost predicate Dictated(p: Policy, outcome: nat -> Option<Err>, shouldRetry: Err -> bool,
                                    canceled: nat -> bool, ending: Ending) {
    var n := ending.attempt;
    && 1 <= n <= MaxAttempts(p)
    && (forall k: nat | 1 <= k < n :: GoesOn(outcome, shouldRetry, canceled, k))
    && match ending
       case Returned(_) => !Again(outcome, shouldRetry, n) || n == MaxAttempts(p)
       case CanceledAfter(_) => Again(outcome, shouldRetry, n) && n < MaxAttempts(p) && canceled(n)
  }

  method RetryExecute(p: Policy, outcome: nat -> Option<Err>, shouldRetry: Err -> bool, canceled: nat -> bool)
    returns (ending: Ending, waits: seq<int>)
    ensures Dictated(p, outcome, shouldRetry, canceled, ending)
    ensures |waits| == if ending.Returned? then ending.attempt - 1 else ending.attempt
    ensures forall i | 0 <= i < |waits| :: waits[i] == Backoff(p, i + 1)
  {
    var backoff := p.initialBackoff;
    var maxAttempts := if p.maxAttempts > 1 then p.maxAttempts else 1;
    var attempt: nat := 1;
    waits := [];
    while true
      invariant 1 <= attempt <= maxAttempts == MaxAttempts(p)
      invariant backoff == Backoff(p, attempt)
      invariant |waits| == attempt - 1
      invariant forall i | 0 <= i < |waits| :: waits[i] == Backoff(p, i + 1)
      invariant forall k: nat | 1 <= k < attempt :: GoesOn(outcome, shouldRetry, canceled, k)
      decreases maxAttempts - attempt
    {
      var err := outcome(attempt);
      if err == None || !shouldRetry(err.value) {
        return Returned(attempt), waits;
      }
      if attempt >= maxAttempts {
        return Returned(attempt), waits;
      }
      waits := waits + [backoff];
      if canceled(attempt) {
        return CanceledAfter(attempt), waits;
      }
      assert GoesOn(outcome, shouldRetry, canceled, attempt);
      backoff := NextBackoff(p, backoff);
      attempt := attempt + 1;
    }
  }

  /** The outcomes dictate one ending only. */
  lemma EndingUnique(p: Policy, outcome: nat -> Option<Err>, shouldRetry: Err -> bool, canceled: nat -> bool,
                        a: Ending, b: Ending)
    requires Dictated(p, outcome, shouldRetry, canceled, a)
    requires Dictated(p, outcome, shouldRetry, canceled, b)
    ensures a == b
  {
    assert a.attempt < b.attempt ==> GoesOn(outcome, shouldRetry, canceled, a.attempt);
    assert b.attempt < a.attempt ==> GoesOn(outcome, shouldRetry, canceled, b.attempt);
  }

  /** Without cancellation the number of calls is the least of the limit and the index of the first call
      that does not ask for another. When all the calls allowed ask for another, any index past the limit
      will do, and the limit is the number of calls. */
  lemma CallsMade(p: Policy, outcome: nat -> Option<Err>, shouldRetry: Err -> bool, canceled: nat -> bool,
                     ending: Ending, firstStop: nat)
    requires Dictated(p, outcome, shouldRetry, canceled, ending)
    requires forall k :: !canceled(k)
    requires firstStop >= 1 && (firstStop <= MaxAttempts(p) ==> !Again(outcome, shouldRetry, firstStop))
    requires forall k: nat | 1 <= k < firstStop && k <= MaxAttempts(p) :: Again(outcome, shouldRetry, k)
    ensures ending == Returned(Min(if p.maxAttempts < 1 then 1 else p.maxAttempts, firstStop))
  {
    assert firstStop < ending.attempt ==> GoesOn(outcome, shouldRetry, canceled, firstStop);
  }

  // ---------------------------------------------------------------- the waits in closed form

  function Power(b: real, e: nat): real {
    if e == 0 then 1.0 else Times(b, Power(b, e - 1))
  }

  /** Initial * Factor^(k - 1). */
  function Geometric(p: Policy, k: nat): real
    requires k >= 1
  {
    Times(p.initialBackoff as real, Power(p.factor, k - 1))
  }

  /** The k-th wait is the geometric one, cut off at the maximum. */
  predicate CappedGeometric(p: Policy, k: nat)
    requires k >= 1
  {
    Backoff(p, k) as real ==
      if Geometric(p, k) < p.maxBackoff as real then Geometric(p, k) else p.maxBackoff as real
  }

  predicate Whole(x: real) {
    x.Floor as real == x
  }

  /** Truncation to a whole duration loses nothing in the k-th wait. */
  predicate WholeBelowCap(p: Policy, k: nat)
    requires k >= 1
  {
    Geometric(p, k) < p.maxBackoff as real ==> Whole(Geometric(p, k))
  }

  lemma GeometricGrows(p: Policy, k: nat)
    requires k >= 2
    ensures Geometric(p, k) == Times(Geometric(p, k - 1), p.factor)
  {
    Regroup(p.initialBackoff as real, p.factor, Power(p.factor, k - 2));
  }

  lemma Regroup(a: real, b: real, c: real)
    ensures Times(a, Times(b, c)) == Times(Times(a, c), b)
  {
  }

  lemma AtLeast(x: real, factor: real)
    requires x >= 0.0 && factor >= 1.0
    ensures Times(x, factor) >= x
  {
  }

  lemma Scaled(x: real, y: real, factor: real)
    requires x > y >= 0.0
    ensures factor > 0.0 ==> Times(x, factor) > Times(y, factor) >= 0.0
    ensures factor < 0.0 ==> Times(x, factor) < Times(y, factor) <= 0.0
    ensures factor == 0.0 ==> Times(x, factor) == Times(y, factor) == 0.0
    ensures factor < 1.0 && y > 0.0 ==> Times(y, factor) < y
  {
  }

  lemma CutOff(x: real, cap: int)
    requires cap >= 0
    ensures Min(Truncated(x), cap) as real == (if x < cap as real then x else cap as real) <==>
            (x < cap as real ==> Whole(x))
    ensures x < 0.0 ==> Min(Truncated(x), cap) as real >= x
    ensures 0.0 <= x < cap as real ==> Min(Truncated(x), cap) as real <= x
  {
  }

  /** Cutting off at the maximum does no harm to later waits: the k-th wait was not cut off, or the waits do
      not shrink again. */
  predicate CutOffHarmless(p: Policy, k: nat)
    requires k >= 1
  {
    Geometric(p, k) <= p.maxBackoff as real || p.factor >= 1.0 || (p.factor >= 0.0 && p.maxBackoff == 0)
  }

  /** One wait on, from the maximum where the geometric wait has passed it. */
  lemma NextFromCap(geometric: real, factor: real, cap: int)
    requires cap >= 0 && geometric > cap as real && factor != 0.0
    ensures (Min(Truncated(Times(cap as real, factor)), cap) as real ==
               if Times(geometric, factor) < cap as real then Times(geometric, factor) else cap as real)
            <==> factor >= 1.0 || (factor >= 0.0 && cap == 0)
    ensures factor >= 1.0 || (factor >= 0.0 && cap == 0) ==> Times(geometric, factor) >= cap as real
  {
    Scaled(geometric, cap as real, factor);
    CutOff(Times(cap as real, factor), cap);
    if factor >= 1.0 {
      AtLeast(geometric, factor);
      AtLeast(cap as real, factor);
    }
  }

  lemma ZeroFactor(p: Policy, k: nat)
    requires k >= 2
    ensures p.factor == 0.0 ==> Geometric(p, k) == 0.0
  {
    GeometricGrows(p, k);
  }

  lemma NextIsCapped(p: Policy, k: nat)
    requires p.maxBackoff >= 0 && k >= 2
    requires k == 2 || CappedGeometric(p, k - 1)
    ensures CappedGeometric(p, k) <==> WholeBelowCap(p, k) && (k == 2 || CutOffHarmless(p, k - 1))
  {
    GeometricGrows(p, k);
    if Backoff(p, k - 1) as real == Geometric(p, k - 1) {
      CutOff(Geometric(p, k), p.maxBackoff);
    } else {
      ZeroFactor(p, k - 1);
      NextFromCap(Geometric(p, k - 1), p.factor, p.maxBackoff);
    }
  }

  /** For every factor: all waits after the first, up to the n-th, are the geometric ones cut off at the
      maximum, exactly when none of those below the maximum has a fraction and no wait before the last was
      cut off harmfully. The first wait is the initial backoff, cut off by nothing. */
  lemma {:induction false} BackoffClosedForm(p: Policy, n: nat)
    requires p.maxBackoff >= 0
    ensures (forall k | 2 <= k <= n :: CappedGeometric(p, k)) <==>
            (forall k | 2 <= k <= n :: WholeBelowCap(p, k)) && (forall k | 2 <= k < n :: CutOffHarmless(p, k))
    ensures Backoff(p, 1) == p.initialBackoff
  {
    if n >= 2 {
      BackoffClosedForm(p, n - 1);
      if n == 2 || CappedGeometric(p, n - 1) {
        NextIsCapped(p, n);
      }
    }
  }

  lemma {:induction false} WholePower(factor: nat, e: nat) returns (n: nat)
    ensures Power(factor as real, e) == n as real
  {
    if e == 0 {
      n := 1;
    } else {
      var m := WholePower(factor, e - 1);
      n := factor * m;
    }
  }

  /** A whole factor, such as the 2 that the services use, always meets that condition. */
  lemma WholeFactorIsExact(p: Policy, factor: nat, k: nat)
    requires p.factor == factor as real && factor >= 1 && k >= 2
    requires p.initialBackoff >= 0 && p.maxBackoff >= 0
    ensures CappedGeometric(p, k)
  {
    forall i | 2 <= i <= k ensures WholeBelowCap(p, i) {
      var n := WholePower(factor, i - 1);
      assert Geometric(p, i) == (p.initialBackoff * n) as real;
    }
    BackoffClosedForm(p, k);
  }

  /** A factor with a fraction can fail it: 1, then 1.5 truncated to 1, then 1.5 truncated again. */
  lemma FractionsFallBehind(maxBackoff: int)
    requires maxBackoff >= 3
    ensures !CappedGeometric(Policy(1, maxBackoff, 1.5, 4), 3)
    ensures Backoff(Policy(1, maxBackoff, 1.5, 4), 3) == 1
  {
    var p := Policy(1, maxBackoff, 1.5, 4);
    assert Backoff(p, 2) == 1;
    assert Power(1.5, 2) == 1.5 * Power(1.5, 1) == 2.25;
  }

  function Sum(xs: seq<int>): int {
    if xs == [] then 0 else Sum(xs[..|xs| - 1]) + xs[|xs| - 1]
  }

  lemma {:induction false} WaitsAreBounded(p: Policy, waits: seq<int>)
    requires forall i | 0 <= i < |waits| :: waits[i] == Backoff(p, i + 1)
    ensures waits != [] ==> Sum(waits) <= p.initialBackoff + (|waits| - 1) * p.maxBackoff
  {
    if |waits| == 1 {
      assert Sum(waits) == Sum(waits[..0]) + waits[0];
    } else if |waits| > 1 {
      var n := |waits| - 1;
      WaitsAreBounded(p, waits[..n]);
      assert waits[n] <= p.maxBackoff;
    }
  }

  /** However many retries, the waits of one call add up to at most the initial backoff and one maximal
      backoff for each retry after the first. */
  lemma TotalWait(p: Policy, outcome: nat -> Option<Err>, shouldRetry: Err -> bool, canceled: nat -> bool,
                  ending: Ending, waits: seq<int>)
    requires p.initialBackoff >= 0 && p.maxBackoff >= 0
    requires Dictated(p, outcome, shouldRetry, canceled, ending)
    requires |waits| == if ending.Returned? then ending.attempt - 1 else ending.attempt
    requires forall i | 0 <= i < |waits| :: waits[i] == Backoff(p, i + 1)
    ensures Sum(waits) <= if MaxAttempts(p) == 1 then 0 else p.initialBackoff + (MaxAttempts(p) - 2) * p.maxBackoff
  {
    WaitsAreBounded(p, waits);
    var n: nat := MaxAttempts(p);
    if waits != [] {
      ScalesUp(|waits| - 1, n - 2, p.maxBackoff);
    } else if n > 1 {
      ScalesUp(0, n - 2, p.maxBackoff);
    }
  }

  lemma ScalesUp(a: nat, b: nat, c: nat)
    requires a <= b
    ensures a * c <= b * c
  {
  }
}
