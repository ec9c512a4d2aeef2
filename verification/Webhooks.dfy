/**
 * Outgoing webhook deliveries: queueing, claiming, retrying with growing delays, giving up
 * (apps/api/voiceos_api/outgoing_webhooks.py, repository.py and the tick of routes.py).
 */
module Webhooks {
  import opened Wrappers

  type Id = nat
  type Time = int

  const RETRY_DELAYS := [60, 300, 1_800, 7_200, 43_200]

  datatype Status = Pending | Processing | Retrying | Delivered | Failed

  /** Hooks and deliveries are known by their place in creation order. */
  datatype Hook = Hook(tenant: nat, events: set<string>, enabled: bool, secret: bool, deleted: bool)

  datatype Delivery = Delivery(tenant: nat, hook: Id, event: string, status: Status, attempts: int, code: Option<int>,
                               nextRetry: Option<Time>)

  datatype Queue = Queue(hooks: seq<Hook>, deliveries: seq<Delivery>)

  /** The fields an attempt's outcome sets; no code when sending raised. */
  datatype Outcome = Outcome(status: Status, code: Option<int>, nextRetry: Option<Time>)

  function DeliveryResult(attempts: int, code: Option<int>, now: Time): (o: Outcome)
    ensures o.status in {Delivered, Failed, Retrying} && o.code == code
    ensures o.status == Delivered <==> code.Some? && 200 <= code.value < 300
    ensures o.status == Retrying <==> o.nextRetry.Some?
    ensures o.status == Failed ==> attempts >= 5
    ensures o.status == Retrying ==> attempts < 5 && o.nextRetry.value >= now + 60
  {
    if code.Some? && 200 <= code.value < 300 then Outcome(Delivered, code, None)
    else if attempts >= |RETRY_DELAYS| then Outcome(Failed, code, None)
    else Outcome(Retrying, code, Some(now + RETRY_DELAYS[if attempts - 1 > 0 then attempts - 1 else 0]))
  }

  function Resolved(d: Delivery, code: Option<int>, now: Time): Delivery {
    var o := DeliveryResult(d.attempts, code, now);
    d.(status := o.status, code := o.code, nextRetry := o.nextRetry)
  }

  predicate Waiting(d: Delivery) {
    d.status == Pending || d.status == Retrying
  }

  predicate Due(d: Delivery, now: Time) {
    Waiting(d) && d.nextRetry.Some? && d.nextRetry.value <= now
  }

  predicate Reachable(hooks: seq<Hook>, d: Delivery) {
    d.hook < |hooks| && !hooks[d.hook].deleted && hooks[d.hook].enabled && hooks[d.hook].secret
  }

  predicate Ready(hooks: seq<Hook>, d: Delivery, now: Time) {
    Due(d, now) && Reachable(hooks, d)
  }

  function Taken(d: Delivery): Delivery {
    d.(status := Processing, attempts := d.attempts + 1)
  }

  function TakenAt(i: Id, d: Delivery): Delivery {
    Taken(d)
  }

  /** The first `limit` ready deliveries. */
  function Claims(hooks: seq<Hook>, ds: seq<Delivery>, now: Time, limit: nat): (ids: seq<Id>)
    ensures |ids| <= limit
    ensures forall k :: 0 <= k < |ids| ==> ids[k] < |ds|
  {
    if ds == [] then []
    else
      var n := |ds| - 1;
      var before := Claims(hooks, ds[..n], now, limit);
      if |before| < limit && Ready(hooks, ds[n], now) then before + [n] else before
  }

  /** The deliveries at these places changed, the others as they were. */
  function Changed(ds: seq<Delivery>, ids: seq<Id>, f: (Id, Delivery) -> Delivery): (r: seq<Delivery>)
    ensures |r| == |ds|
    ensures forall i :: 0 <= i < |ds| ==> r[i] == if i in ids then f(i, ds[i]) else ds[i]
  {
    seq(|ds|, i requires 0 <= i < |ds| => if i in ids then f(i, ds[i]) else ds[i])
  }

  function ClaimDeliveries(q: Queue, now: Time, limit: nat): (Queue, seq<Id>) {
    var ids := Claims(q.hooks, q.deliveries, now, limit);
    (q.(deliveries := Changed(q.deliveries, ids, TakenAt)), ids)
  }

  /** One attempt: `code(i)` is the answer to delivery i and `at(i)` when it came. */
  function Attempt(code: Id -> Option<int>, at: Id -> Time): (Id, Delivery) -> Delivery {
    (i: Id, d: Delivery) => Resolved(Taken(d), code(i), at(i))
  }

  function Tick(q: Queue, now: Time, limit: nat, code: Id -> Option<int>, at: Id -> Time): Queue {
    q.(deliveries := Changed(q.deliveries, Claims(q.hooks, q.deliveries, now, limit), Attempt(code, at)))
  }

  predicate Wants(hook: Hook, tenant: nat, event: string) {
    hook.tenant == tenant && !hook.deleted && hook.enabled && (event in hook.events || "*" in hook.events)
  }

  /** One new delivery for every hook that wants the event. */
  function NewDeliveries(hooks: seq<Hook>, tenant: nat, event: string, now: Time): seq<Delivery> {
    if hooks == [] then []
    else
      var n := |hooks| - 1;
      NewDeliveries(hooks[..n], tenant, event, now)
      + if Wants(hooks[n], tenant, event) then [Delivery(tenant, n, event, Pending, 0, None, Some(now))] else []
  }

  function QueueEvent(q: Queue, tenant: nat, event: string, now: Time): Queue {
    q.(deliveries := q.deliveries + NewDeliveries(q.hooks, tenant, event, now))
  }

  predicate CanRetry(q: Queue, tenant: nat, hook: Id, id: Id) {
    id < |q.deliveries| && q.deliveries[id].tenant == tenant && q.deliveries[id].hook == hook
  }

  function Retry(q: Queue, tenant: nat, hook: Id, id: Id, now: Time): Queue {
    if CanRetry(q, tenant, hook, id)
    then q.(deliveries :=
              q.deliveries[id := q.deliveries[id].(status := Pending, attempts := 0, nextRetry := Some(now))])
    else q
  }

  // ------------------------------------------------------------------------------ a tick

  /** Claimed are, in order and once each, ready deliveries; all of them unless the limit is hit. */
  lemma {:induction false} ClaimsMeaning(hooks: seq<Hook>, ds: seq<Delivery>, now: Time, limit: nat)
    ensures var ids := Claims(hooks, ds, now, limit);
            && (forall k :: 0 <= k < |ids| ==> Ready(hooks, ds[ids[k]], now))
            && (forall j, k :: 0 <= j < k < |ids| ==> ids[j] < ids[k])
            && (|ids| < limit ==> AllClaimed(hooks, ds, now, ids))
  {
    if ds != [] {
      var n := |ds| - 1;
      ClaimsMeaning(hooks, ds[..n], now, limit);
      assert ds == ds[..n] + [ds[n]];
      var before := Claims(hooks, ds[..n], now, limit);
      if |before| < limit { AllClaimedStep(hooks, ds[..n], ds[n], now, before); }
    }
  }

  predicate AllClaimed(hooks: seq<Hook>, ds: seq<Delivery>, now: Time, ids: seq<Id>) {
    forall i :: 0 <= i < |ds| && Ready(hooks, ds[i], now) ==> i in ids
  }

  lemma AllClaimedStep(hooks: seq<Hook>, ds: seq<Delivery>, d: Delivery, now: Time, ids: seq<Id>)
    requires AllClaimed(hooks, ds, now, ids)
    ensures AllClaimed(hooks, ds + [d], now, if Ready(hooks, d, now) then ids + [|ds|] else ids)
  {
    assert forall i :: 0 <= i < |ds| ==> (ds + [d])[i] == ds[i];
    assert |ds| in ids + [|ds|];
  }

  /** What holds between ticks: nothing is being processed, a waiting delivery has a time to be
      retried at, and the attempts are 0 while pending, 1 to 4 while retrying and 5 when failed. */
  predicate DeliveryOk(d: Delivery) {
    match d.status
    case Pending => d.attempts == 0 && d.nextRetry.Some?
    case Retrying => 1 <= d.attempts < 5 && d.nextRetry.Some?
    case Delivered => 1 <= d.attempts <= 5 && d.nextRetry.None?
    case Failed => d.attempts == 5 && d.nextRetry.None?
    case Processing => false
  }

  predicate Ok(q: Queue) {
    forall i :: 0 <= i < |q.deliveries| ==> DeliveryOk(q.deliveries[i])
  }

  lemma AttemptKeepsOk(d: Delivery, code: Option<int>, at: Time)
    requires DeliveryOk(d) && Waiting(d)
    ensures DeliveryOk(Resolved(Taken(d), code, at)) && Left(Resolved(Taken(d), code, at)) < Left(d)
  {
  }

  lemma ClaimedWait(q: Queue, now: Time, limit: nat, id: Id)
    requires id in Claims(q.hooks, q.deliveries, now, limit)
    ensures id < |q.deliveries| && Ready(q.hooks, q.deliveries[id], now)
  {
    var ids := Claims(q.hooks, q.deliveries, now, limit);
    ClaimsMeaning(q.hooks, q.deliveries, now, limit);
    var k :| 0 <= k < |ids| && ids[k] == id;
  }

  /** A tick leaves nothing in processing: a delivery it took is delivered, waits for its next
      turn, or has failed after its fifth attempt. */
  lemma TickKeepsOk(q: Queue, now: Time, limit: nat, code: Id -> Option<int>, at: Id -> Time)
    requires Ok(q)
    ensures Ok(Tick(q, now, limit, code, at))
  {
    var ids := Claims(q.hooks, q.deliveries, now, limit);
    var after := Tick(q, now, limit, code, at).deliveries;
    forall i | 0 <= i < |after| ensures DeliveryOk(after[i]) {
      if i in ids {
        ClaimedWait(q, now, limit, i);
        AttemptKeepsOk(q.deliveries[i], code(i), at(i));
      }
    }
  }

  /** Attempts left to the deliveries that wait. */
  function Left(d: Delivery): int {
    if Waiting(d) then 5 - d.attempts else 0
  }

  function Remaining(ds: seq<Delivery>): int {
    if ds == [] then 0 else Remaining(ds[..|ds| - 1]) + Left(ds[|ds| - 1])
  }

  lemma {:induction false} RemainingNone(ds: seq<Delivery>)
    requires forall i :: 0 <= i < |ds| ==> DeliveryOk(ds[i])
    ensures Remaining(ds) >= 0
    ensures Remaining(ds) == 0 <==> forall i :: 0 <= i < |ds| ==> ds[i].status in {Delivered, Failed}
  {
    if ds != [] {
      var n := |ds| - 1;
      RemainingNone(ds[..n]);
      assert forall i :: 0 <= i < n ==> ds[..n][i] == ds[i];
    }
  }

  lemma {:induction false} ChangedRemaining(hooks: seq<Hook>, ds: seq<Delivery>, now: Time, limit: nat,
                                            code: Id -> Option<int>, at: Id -> Time)
    requires forall i :: 0 <= i < |ds| ==> DeliveryOk(ds[i])
    ensures var ids := Claims(hooks, ds, now, limit);
            Remaining(Changed(ds, ids, Attempt(code, at))) <= Remaining(ds) - |ids|
  {
    if ds != [] {
      var n := |ds| - 1;
      var f := Attempt(code, at);
      var before, ids := Claims(hooks, ds[..n], now, limit), Claims(hooks, ds, now, limit);
      ChangedRemaining(hooks, ds[..n], now, limit, code, at);
      var after := Changed(ds, ids, f);
      assert after[..n] == Changed(ds[..n], before, f);
      if ids != before {
        assert ids[|ids| - 1] == n;
        AttemptKeepsOk(ds[n], code(n), at(n));
      } else {
        assert n !in ids;
      }
    }
  }

  /** Every claim uses up at least one remaining attempt, so without new events and manual retries
      no more sends can follow than attempts remain; when none do, every delivery is delivered or
      has failed. */
  lemma TickUsesAttempts(q: Queue, now: Time, limit: nat, code: Id -> Option<int>, at: Id -> Time)
    requires Ok(q)
    ensures var claimed := |Claims(q.hooks, q.deliveries, now, limit)|;
            0 <= Remaining(Tick(q, now, limit, code, at).deliveries) <= Remaining(q.deliveries) - claimed
    ensures Remaining(q.deliveries) == 0 <==>
              forall i :: 0 <= i < |q.deliveries| ==> q.deliveries[i].status in {Delivered, Failed}
  {
    ChangedRemaining(q.hooks, q.deliveries, now, limit, code, at);
    TickKeepsOk(q, now, limit, code, at);
    RemainingNone(q.deliveries);
    RemainingNone(Tick(q, now, limit, code, at).deliveries);
  }

  // -------------------------------------------------------------------------- over whole runs

  datatype Event =
    | Queues(tenant: nat, event: string, now: Time)
    | Ticks(now: Time, limit: nat, code: Id -> Option<int>, at: Id -> Time)
    | Retries(tenant: nat, hook: Id, id: Id, now: Time)
    | SetsHooks(hooks: seq<Hook>)

  function Step(q: Queue, e: Event): Queue {
    match e
    case Queues(tenant, event, now) => QueueEvent(q, tenant, event, now)
    case Ticks(now, limit, code, at) => Tick(q, now, limit, code, at)
    case Retries(tenant, hook, id, now) => Retry(q, tenant, hook, id, now)
    case SetsHooks(hooks) => q.(hooks := hooks)
  }

  const EMPTY := Queue([], [])

  function Run(events: seq<Event>): Queue {
    if events == [] then EMPTY else Step(Run(events[..|events| - 1]), events[|events| - 1])
  }

  /** How often a delivery was claimed since it was last retried by hand. */
  function Sends(events: seq<Event>, id: Id): nat {
    if events == [] then 0
    else
      var rest, e := events[..|events| - 1], events[|events| - 1];
      var q := Run(rest);
      match e
      case Ticks(now, limit, _, _) =>
        Sends(rest, id) + (if id in Claims(q.hooks, q.deliveries, now, limit) then 1 else 0)
      case Retries(tenant, hook, i, _) => if i == id && CanRetry(q, tenant, hook, id) then 0 else Sends(rest, id)
      case _ => Sends(rest, id)
  }

  lemma {:induction false} NewDeliveriesOk(hooks: seq<Hook>, tenant: nat, event: string, now: Time)
    ensures forall d :: d in NewDeliveries(hooks, tenant, event, now) ==> DeliveryOk(d) && d.attempts == 0
  {
    if hooks != [] { NewDeliveriesOk(hooks[..|hooks| - 1], tenant, event, now); }
  }

  lemma QueueKeepsOk(q: Queue, tenant: nat, event: string, now: Time)
    requires Ok(q)
    ensures Ok(QueueEvent(q, tenant, event, now))
  {
    NewDeliveriesOk(q.hooks, tenant, event, now);
    var added := NewDeliveries(q.hooks, tenant, event, now);
    forall i | 0 <= i < |q.deliveries + added| ensures DeliveryOk((q.deliveries + added)[i]) {
      assert i >= |q.deliveries| ==> (q.deliveries + added)[i] in added;
    }
  }

  lemma {:induction false} RunOk(events: seq<Event>)
    ensures Ok(Run(events))
  {
    if events != [] {
      var q := Run(events[..|events| - 1]);
      RunOk(events[..|events| - 1]);
      match events[|events| - 1]
      case Queues(tenant, event, now) => QueueKeepsOk(q, tenant, event, now);
      case Ticks(now, limit, code, at) => TickKeepsOk(q, now, limit, code, at);
      case _ =>
    }
  }

  /** In every run the attempts count the sends since the last manual retry. */
  lemma {:induction false} SendsAreAttempts(events: seq<Event>, id: Id)
    ensures Sends(events, id) == if id < |Run(events).deliveries| then Run(events).deliveries[id].attempts else 0
  {
    if events != [] {
      var rest, e := events[..|events| - 1], events[|events| - 1];
      SendsAreAttempts(rest, id);
      var q := Run(rest);
      match e
      case Queues(tenant, event, now) => if id >= |q.deliveries| { NewHaveNoAttempts(q, tenant, event, now, id); }
      case Ticks(now, limit, code, at) => TickAttempts(q, now, limit, code, at, id);
      case _ =>
    }
  }

  lemma NewHaveNoAttempts(q: Queue, tenant: nat, event: string, now: Time, id: Id)
    requires |q.deliveries| <= id
    ensures id < |QueueEvent(q, tenant, event, now).deliveries| ==>
              QueueEvent(q, tenant, event, now).deliveries[id].attempts == 0
  {
    NewDeliveriesOk(q.hooks, tenant, event, now);
    var added := NewDeliveries(q.hooks, tenant, event, now);
    assert id < |q.deliveries + added| ==> (q.deliveries + added)[id] in added;
  }

  lemma TickAttempts(q: Queue, now: Time, limit: nat, code: Id -> Option<int>, at: Id -> Time, id: Id)
    ensures var after, ids := Tick(q, now, limit, code, at).deliveries, Claims(q.hooks, q.deliveries, now, limit);
            && |after| == |q.deliveries|
            && (id < |after| ==> after[id].attempts == q.deliveries[id].attempts + if id in ids then 1 else 0)
            && (id in ids ==> id < |after|)
  {
    var after, ids := Tick(q, now, limit, code, at).deliveries, Claims(q.hooks, q.deliveries, now, limit);
    if id in ids {
      ClaimedWait(q, now, limit, id);
      assert after[id] == Resolved(Taken(q.deliveries[id]), code(id), at(id));
    }
  }

  /** Between manual retries no delivery is ever sent more than five times. */
  lemma SentAtMostFiveTimes(events: seq<Event>, id: Id)
    ensures Sends(events, id) <= |RETRY_DELAYS|
  {
    RunOk(events);
    SendsAreAttempts(events, id);
    var ds := Run(events).deliveries;
    assert id < |ds| ==> DeliveryOk(ds[id]);
    assert |RETRY_DELAYS| == 5;
  }

  /** After a failed attempt the next one waits at least the delay of that attempt's number. */
  lemma BackoffHolds(q: Queue, now: Time, limit: nat, code: Id -> Option<int>, at: Id -> Time, id: Id, later: Time)
    requires Ok(q) && id in Claims(q.hooks, q.deliveries, now, limit)
    ensures var d, next := q.deliveries[id], Tick(q, now, limit, code, at).deliveries[id];
            && 0 <= d.attempts < 5 && next.attempts == d.attempts + 1
            && (Due(next, later) ==> next.attempts < 5 && later >= at(id) + RETRY_DELAYS[d.attempts])
  {
    TickKeepsOk(q, now, limit, code, at);
    ClaimedWait(q, now, limit, id);
    assert DeliveryOk(q.deliveries[id]) && DeliveryOk(Tick(q, now, limit, code, at).deliveries[id]);
    assert |RETRY_DELAYS| == 5;
  }
}
