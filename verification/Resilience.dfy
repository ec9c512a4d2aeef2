/**
 * The breaker object and `resilient_call`, which tries a primary provider under it and falls back
 * (apps/agent-worker/voiceos_voice/resilience.py).
 */
module Resilience {
  import opened Wrappers
  import opened Breaker

  /** What awaiting a provider does. `Fault`: a timeout, an OSError or a RuntimeError. */
  datatype Outcome<T> = Returned(value: T) | Fault | OtherError(message: string)

  class CircuitBreaker {
    const settings: Settings
    var failures: seq<real>
    var openedAt: Option<real>

    ghost function State(): Fields reads this {
      Fields(failures, openedAt)
    }

    constructor (settings: Settings)
      requires settings.threshold >= 1
      ensures this.settings == settings && State() == CLEAR
    {
      this.settings, failures, openedAt := settings, [], None;
    }

    method CurrentState(now: real) returns (state: CircuitState)
      ensures state == StateAt(State(), now, settings)
    {
      if openedAt.None? {
        return Closed;
      }
      return if now - openedAt.value >= settings.recovery then HalfOpen else Open;
    }

    method Success()
      modifies this
      ensures State() == CLEAR
    {
      failures, openedAt := [], None;
    }

    method Failure(now: real)
      modifies this
      ensures State() == Fail(old(State()), now, settings)
    {
      var kept, i := [], 0;
      while i < |failures|
        invariant 0 <= i <= |failures|
        invariant kept == Prune(failures[..i], now, settings.window)
      {
        assert failures[..i + 1][..i] == failures[..i];
        if now - failures[i] <= settings.window {
          kept := kept + [failures[i]];
        }
        i := i + 1;
      }
      assert failures[..i] == failures;
      failures := kept + [now];
      if |failures| >= settings.threshold {
        openedAt := Some(now);
      }
    }
  }

  // ------------------------------------------------------------------------------ one call

  /** How many attempts in a row fail before one does not, out of `n`. */
  function Faults<T>(primary: nat -> Outcome<T>, n: nat): nat {
    if n == 0 then 0
    else var before := Faults(primary, n - 1); if before == n - 1 && primary(n - 1).Fault? then n else before
  }

  /** It is the first attempt that does not fail, or `n`. */
  lemma {:induction false} FaultsMeaning<T>(primary: nat -> Outcome<T>, n: nat)
    ensures Faults(primary, n) <= n
    ensures forall k :: 0 <= k < Faults(primary, n) ==> primary(k).Fault?
    ensures Faults(primary, n) < n ==> !primary(Faults(primary, n)).Fault?
  {
    if n > 0 { FaultsMeaning(primary, n - 1); }
  }

  function Failures(b: Fields, clock: nat -> real, n: nat, settings: Settings): Fields {
    if n == 0 then b else Fail(Failures(b, clock, n - 1, settings), clock(n), settings)
  }

  function Attempts(retries: int): nat {
    if retries + 1 > 0 then retries + 1 else 0
  }

  function Tag<T>(o: Outcome<T>, fallback: bool): Outcome<(T, bool)> {
    match o
    case Returned(value) => Returned((value, fallback))
    case Fault => Fault
    case OtherError(message) => OtherError(message)
  }

  /** The provider's value with the flag, or what it raised. */
  ghost predicate IsOutcome<T>(result: Outcome<(T, bool)>, o: Outcome<T>, fallback: bool) {
    && (result.Returned? <==> o.Returned?) && (result.Fault? <==> o.Fault?)
    && (result.Returned? ==> result.value.0 == o.value && result.value.1 == fallback)
    && (result.OtherError? ==> result.message == o.message)
  }

  /** `clock(0)` is the time of the call, `clock(k + 1)` that at which attempt k ended. An open
      circuit goes straight to the fallback and leaves the breaker alone. Otherwise attempts go on
      while they fail; each failure is recorded; a result clears the breaker and any other
      exception ends the call. The flag is true exactly for what the fallback gave. */
  method ResilientCall<T>(breaker: CircuitBreaker, primary: nat -> Outcome<T>, fallback: Outcome<T>,
                          clock: nat -> real, retries: int)
    returns (result: Outcome<(T, bool)>, calls: nat)
    modifies breaker
    ensures old(StateAt(breaker.State(), clock(0), breaker.settings)) == Open ==>
              calls == 0 && IsOutcome(result, fallback, true) && breaker.State() == old(breaker.State())
    ensures old(StateAt(breaker.State(), clock(0), breaker.settings)) != Open ==>
              var n: nat := if retries < 0 then 0 else retries + 1;
              var faults := Faults(primary, n);
              && calls == (if faults < n then faults + 1 else n)
              && (if faults < n then IsOutcome(result, primary(faults), false) else IsOutcome(result, fallback, true))
              && breaker.State() == if faults < n && primary(faults).Returned? then CLEAR
                                    else Failures(old(breaker.State()), clock, faults, breaker.settings)
  {
    calls := 0;
    var state := breaker.CurrentState(clock(0));
    if state == Open {
      return Tag(fallback, true), calls;
    }
    var n := Attempts(retries);
    FaultsMeaning(primary, n);
    var attempt := 0;
    while attempt < n
      invariant 0 <= attempt <= n && calls == attempt
      invariant Faults(primary, attempt) == attempt
      invariant breaker.State() == Failures(old(breaker.State()), clock, attempt, breaker.settings)
    {
      var outcome := primary(attempt);
      calls := calls + 1;
      FirstStop(primary, attempt, n);
      if outcome.Returned? {
        breaker.Success();
        return Tag(outcome, false), calls;
      } else if outcome.OtherError? {
        return Tag(outcome, false), calls;
      }
      breaker.Failure(clock(attempt + 1));
      attempt := attempt + 1;
    }
    return Tag(fallback, true), calls;
  }

  lemma {:induction false} FirstStop<T>(primary: nat -> Outcome<T>, k: nat, n: nat)
    requires k < n && Faults(primary, k) == k
    ensures !primary(k).Fault? ==> Faults(primary, n) == k
    decreases n
  {
    if k < n - 1 { FirstStop(primary, k, n - 1); }
  }

  /** When the first `n` attempts ended. */
  function Times(clock: nat -> real, n: nat): (times: seq<real>)
    ensures |times| == n && (n > 0 ==> times[n - 1] == clock(n))
  {
    if n == 0 then [] else Times(clock, n - 1) + [clock(n)]
  }

  /** A run of `resilient_call`s keeps the breaker in the state of its failure history: the
      failures of a call extend it. */
  lemma {:induction false} FailuresExtendHistory(history: seq<real>, clock: nat -> real, n: nat, settings: Settings)
    requires history != [] ==> history[|history| - 1] <= clock(0)
    requires forall i: nat, j: nat :: i <= j <= n ==> clock(i) <= clock(j)
    ensures Failures(FromHistory(history, settings), clock, n, settings) ==
              FromHistory(history + Times(clock, n), settings)
  {
    if n == 0 {
      assert history + [] == history;
    } else {
      FailuresExtendHistory(history, clock, n - 1, settings);
      var before := history + Times(clock, n - 1);
      assert clock(n - 1) <= clock(n) && clock(0) <= clock(n);
      assert history + Times(clock, n) == before + [clock(n)];
      FailRefines(before, clock(n), settings);
    }
  }
}
