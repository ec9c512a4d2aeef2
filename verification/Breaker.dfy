/**
 * The circuit breaker as a function of the failures since the last success
 * (apps/agent-worker/voiceos_voice/resilience.py).
 */
module Breaker {
  import opened Wrappers

  datatype CircuitState = Closed | Open | HalfOpen

  datatype Settings = Settings(threshold: int, window: real, recovery: real)

  /** The breaker's two mutable fields. */
  datatype Fields = Fields(failures: seq<real>, openedAt: Option<real>)

  function StateAt(b: Fields, now: real, settings: Settings): CircuitState {
    if b.openedAt.None? then Closed
    else if now - b.openedAt.value >= settings.recovery then HalfOpen
    else Open
  }

  function Prune(failures: seq<real>, now: real, window: real): seq<real> {
    if failures == [] then []
    else
      var n := |failures| - 1;
      Prune(failures[..n], now, window) + if now - failures[n] <= window then [failures[n]] else []
  }

  function Fail(b: Fields, now: real, settings: Settings): Fields {
    var failures := Prune(b.failures, now, settings.window) + [now];
    Fields(failures, if |failures| >= settings.threshold then Some(now) else b.openedAt)
  }

  const CLEAR := Fields([], None)

  // ------------------------------------------------------- the state the full history calls for

  predicate Increasing(history: seq<real>) {
    forall i, j :: 0 <= i < j < |history| ==> history[i] <= history[j]
  }

  /** The last failure with those at most `window` before it. */
  function Recent(history: seq<real>, window: real): seq<real> {
    if history == [] then []
    else var n := |history| - 1; Prune(history[..n], history[n], window) + [history[n]]
  }

  /** The last failure at which the threshold was reached. */
  function LastTrip(history: seq<real>, settings: Settings): Option<real> {
    if history == [] then None
    else if |Recent(history, settings.window)| >= settings.threshold then Some(history[|history| - 1])
    else LastTrip(history[..|history| - 1], settings)
  }

  function FromHistory(history: seq<real>, settings: Settings): Fields {
    Fields(Recent(history, settings.window), LastTrip(history, settings))
  }

  /** Pruning twice is pruning once at the later time. */
  lemma {:induction false} PruneTwice(failures: seq<real>, a: real, b: real, window: real)
    requires a <= b
    ensures Prune(Prune(failures, a, window), b, window) == Prune(failures, b, window)
  {
    if failures != [] {
      var n := |failures| - 1;
      PruneTwice(failures[..n], a, b, window);
      var kept := Prune(failures[..n], a, window);
      if a - failures[n] <= window {
        assert (kept + [failures[n]])[..|kept|] == kept;
      } else {
        assert kept + [] == kept;
      }
    }
  }

  lemma PruneAppend(failures: seq<real>, x: real, now: real, window: real)
    ensures Prune(failures + [x], now, window) == Prune(failures, now, window) + if now - x <= window then [x] else []
  {
    assert (failures + [x])[..|failures|] == failures;
  }

  lemma PruneRecent(earlier: seq<real>, last: real, now: real, window: real)
    requires last <= now
    ensures Prune(Prune(earlier, last, window) + [last], now, window) == Prune(earlier + [last], now, window)
  {
    PruneTwice(earlier, last, now, window);
    PruneAppend(Prune(earlier, last, window), last, now, window);
    PruneAppend(earlier, last, now, window);
  }

  lemma RecentStep(history: seq<real>, now: real, window: real)
    requires history != [] ==> history[|history| - 1] <= now
    ensures Recent(history + [now], window) == Prune(Recent(history, window), now, window) + [now]
  {
    assert (history + [now])[..|history|] == history;
    if history != [] {
      var n := |history| - 1;
      assert history == history[..n] + [history[n]];
      PruneRecent(history[..n], history[n], now, window);
    }
  }

  lemma LastTripStep(history: seq<real>, now: real, settings: Settings)
    ensures LastTrip(history + [now], settings)
            == if |Recent(history + [now], settings.window)| >= settings.threshold
               then Some(now) else LastTrip(history, settings)
  {
    assert (history + [now])[..|history|] == history;
  }

  /** A failure takes the state of the history to the state of the longer history: the pruned
      list never forgets a failure that still matters. */
  lemma FailRefines(history: seq<real>, now: real, settings: Settings)
    requires history != [] ==> history[|history| - 1] <= now
    ensures Fail(FromHistory(history, settings), now, settings) == FromHistory(history + [now], settings)
  {
    RecentStep(history, now, settings.window);
    LastTripStep(history, now, settings);
  }

  // ---------------------------------------------------------------------------- over whole runs

  datatype Event = Failed(at: real) | Succeeded(at: real)

  function Run(events: seq<Event>, settings: Settings): Fields {
    if events == [] then CLEAR
    else
      var b, e := Run(events[..|events| - 1], settings), events[|events| - 1];
      if e.Failed? then Fail(b, e.at, settings) else CLEAR
  }

  /** The failures since the last success. */
  function History(events: seq<Event>): seq<real> {
    if events == [] then []
    else
      var e := events[|events| - 1];
      if e.Failed? then History(events[..|events| - 1]) + [e.at] else []
  }

  predicate Monotone(events: seq<Event>) {
    forall i, j :: 0 <= i < j < |events| ==> events[i].at <= events[j].at
  }

  lemma {:induction false} HistoryIncreasing(events: seq<Event>)
    requires Monotone(events)
    ensures Increasing(History(events))
    ensures History(events) != [] ==> events != [] && History(events)[|History(events)| - 1] <= events[|events| - 1].at
  {
    if events != [] { HistoryIncreasing(events[..|events| - 1]); }
  }

  /** With a clock that does not run backwards the breaker is always in the state its full failure
      history calls for. */
  lemma {:induction false} RunFromHistory(events: seq<Event>, settings: Settings)
    requires Monotone(events)
    ensures Run(events, settings) == FromHistory(History(events), settings)
  {
    if events != [] {
      var rest := events[..|events| - 1];
      RunFromHistory(rest, settings);
      HistoryIncreasing(rest);
      if events[|events| - 1].Failed? { FailRefines(History(rest), events[|events| - 1].at, settings); }
    }
  }

  function CountWithin(history: seq<real>, lo: real, hi: real): nat {
    if history == [] then 0
    else var n := |history| - 1; CountWithin(history[..n], lo, hi) + if lo <= history[n] <= hi then 1 else 0
  }

  lemma {:induction false} PruneCounts(failures: seq<real>, now: real, window: real)
    requires forall i :: 0 <= i < |failures| ==> failures[i] <= now
    ensures |Prune(failures, now, window)| == CountWithin(failures, now - window, now)
  {
    if failures != [] { PruneCounts(failures[..|failures| - 1], now, window); }
  }

  lemma RecentCounts(history: seq<real>, window: real)
    requires Increasing(history) && history != [] && window >= 0.0
    ensures var t := history[|history| - 1]; |Recent(history, window)| == CountWithin(history, t - window, t)
  {
    PruneCounts(history[..|history| - 1], history[|history| - 1], window);
  }

  lemma {:induction false} CountGrows(history: seq<real>, n: nat, lo: real, hi: real)
    requires n <= |history|
    ensures CountWithin(history[..n], lo, hi) <= CountWithin(history, lo, hi)
  {
    if n == |history| {
      assert history[..n] == history;
    } else {
      var m := |history| - 1;
      CountGrows(history[..m], n, lo, hi);
      assert history[..m][..n] == history[..n];
    }
  }

  lemma {:induction false} TripCounts(history: seq<real>, settings: Settings)
    requires Increasing(history) && settings.window >= 0.0 && LastTrip(history, settings).Some?
    ensures EnoughFailures(history, LastTrip(history, settings).value, settings)
  {
    var n := |history| - 1;
    if |Recent(history, settings.window)| >= settings.threshold {
      RecentCounts(history, settings.window);
    } else {
      TripCounts(history[..n], settings);
      var t := LastTrip(history, settings).value;
      CountGrows(history, n, t - settings.window, t);
    }
  }

  /** The circuit is open only if, since the last success, at least `threshold` failures fell into
      the window that ends with the failure that opened it. */
  lemma OpenMeansEnoughFailures(events: seq<Event>, now: real, settings: Settings)
    requires Monotone(events) && settings.window >= 0.0
    requires StateAt(Run(events, settings), now, settings) != Closed
    ensures EnoughFailures(History(events), Run(events, settings).openedAt.value, settings)
  {
    RunFromHistory(events, settings);
    HistoryIncreasing(events);
    TripCounts(History(events), settings);
  }

  predicate EnoughFailures(history: seq<real>, t: real, settings: Settings) {
    t in history && CountWithin(history, t - settings.window, t) >= settings.threshold
  }

  lemma FailureTrips(history: seq<real>, now: real, settings: Settings)
    requires Increasing(history + [now]) && settings.window >= 0.0 && settings.recovery > 0.0
    requires StateAt(FromHistory(history, settings), now, settings) != Open
    ensures StateAt(FromHistory(history + [now], settings), now, settings) == Open
            <==> CountWithin(history + [now], now - settings.window, now) >= settings.threshold
  {
    LastTripStep(history, now, settings);
    RecentCounts(history + [now], settings.window);
  }

  /** A failure while the circuit is not open opens it exactly when enough failures lie in the
      window that ends with it. */
  lemma FailureOpens(events: seq<Event>, now: real, settings: Settings)
    requires Monotone(events + [Failed(now)]) && settings.window >= 0.0 && settings.recovery > 0.0
    requires StateAt(Run(events, settings), now, settings) != Open
    ensures StateAt(Run(events + [Failed(now)], settings), now, settings) == Open
            <==> CountWithin(History(events) + [now], now - settings.window, now) >= settings.threshold
  {
    var history := History(events);
    FailureExtends(events, now, settings);
    FailureTrips(history, now, settings);
  }

  lemma FailureExtends(events: seq<Event>, now: real, settings: Settings)
    requires Monotone(events + [Failed(now)])
    ensures Increasing(History(events) + [now])
    ensures Run(events, settings) == FromHistory(History(events), settings)
    ensures Run(events + [Failed(now)], settings) == FromHistory(History(events) + [now], settings)
  {
    var all := events + [Failed(now)];
    assert all[..|events|] == events;
    assert forall i :: 0 <= i < |events| ==> all[i] == events[i];
    RunFromHistory(events, settings);
    RunFromHistory(all, settings);
    HistoryIncreasing(all);
    assert History(all) == History(events) + [now];
  }

  lemma {:induction false} NoneWithin(history: seq<real>, lo: real, hi: real)
    requires forall i :: 0 <= i < |history| ==> history[i] < lo
    ensures CountWithin(history, lo, hi) == 0
  {
    if history != [] { NoneWithin(history[..|history| - 1], lo, hi); }
  }

  /** So a failing probe of a half-open circuit does not open it again once the failures that
      opened it have left the window: only `threshold` new ones do. */
  lemma QuietProbeStaysHalfOpen(events: seq<Event>, now: real, settings: Settings)
    requires Monotone(events + [Failed(now)]) && settings.window >= 0.0 && settings.recovery > 0.0
    requires settings.threshold > 1
    requires StateAt(Run(events, settings), now, settings) == HalfOpen
    requires forall i :: 0 <= i < |History(events)| ==> now - History(events)[i] > settings.window
    ensures StateAt(Run(events + [Failed(now)], settings), now, settings) == HalfOpen
  {
    var history := History(events);
    FailureExtends(events, now, settings);
    FailureTrips(history, now, settings);
    NoneWithin(history, now - settings.window, now);
    assert (history + [now])[..|history|] == history;
    LastTripStep(history, now, settings);
  }

  // -------------------------------------------------------------------- the state at any moment

  /** At failure `k` enough failures lay in the window that ended with it. */
  predicate TripsAt(history: seq<real>, k: nat, settings: Settings)
    requires k < |history|
  {
    CountWithin(history[..k + 1], history[k] - settings.window, history[k]) >= settings.threshold
  }

  predicate IsLastTrip(history: seq<real>, k: int, settings: Settings) {
    0 <= k < |history| && TripsAt(history, k, settings)
    && forall j :: k < j < |history| ==> !TripsAt(history, j, settings)
  }

  lemma TripsSame(history: seq<real>, n: nat, k: nat, settings: Settings)
    requires k < n <= |history|
    ensures TripsAt(history[..n], k, settings) == TripsAt(history, k, settings)
  {
    assert history[..n][..k + 1] == history[..k + 1];
  }

  lemma {:induction false} LastTripExactly(history: seq<real>, settings: Settings)
    requires Increasing(history) && settings.window >= 0.0
    ensures LastTrip(history, settings).None? <==> forall k :: 0 <= k < |history| ==> !TripsAt(history, k, settings)
    ensures forall k :: IsLastTrip(history, k, settings) ==> LastTrip(history, settings) == Some(history[k])
  {
    if history != [] {
      var n := |history| - 1;
      RecentCounts(history, settings.window);
      assert history[..n + 1] == history;
      if !TripsAt(history, n, settings) {
        LastTripExactly(history[..n], settings);
        forall k | 0 <= k < n ensures TripsAt(history[..n], k, settings) == TripsAt(history, k, settings) {
          TripsSame(history, n, k, settings);
        }
        forall k | IsLastTrip(history, k, settings) ensures LastTrip(history, settings) == Some(history[k]) {
          assert IsLastTrip(history[..n], k, settings);
        }
      }
    }
  }

  /** The circuit is closed as long as no failure since the last success tripped it. From the last
      one that did it is open for the recovery time, and half-open from the end of that time on. */
  lemma StateExactly(events: seq<Event>, now: real, settings: Settings)
    requires Monotone(events) && settings.window >= 0.0
    ensures var history, state := History(events), StateAt(Run(events, settings), now, settings);
            && (state == Closed <==> forall k :: 0 <= k < |history| ==> !TripsAt(history, k, settings))
            && forall k :: IsLastTrip(history, k, settings) ==>
                 && (state == HalfOpen <==> now >= history[k] + settings.recovery)
                 && (state == Open <==> now < history[k] + settings.recovery)
  {
    RunFromHistory(events, settings);
    HistoryIncreasing(events);
    LastTripExactly(History(events), settings);
  }
}
