/**
 * What happens to every webhook delivery: which are claimed, what an attempt leaves, which a new
 * event queues, and what a tick reports.
 */
module WebhookEffects {
  import opened Wrappers
  import opened Webhooks
  import opened WebhookStore

  predicate Is2xx(code: Option<int>) {
    code.Some? && 200 <= code.value <= 299
  }

  /** The outcome of attempt number `attempts`: delivered on a 2xx answer; else, up to the fourth,
      the next attempt after one, five, thirty or 120 minutes; failed after that. The last of the
      five configured delays, twelve hours, is never used. */
  lemma OutcomeExactly(attempts: int, code: Option<int>, now: Time)
    ensures var o := DeliveryResult(attempts, code, now);
            && o.code == code
            && (Is2xx(code) ==> o.status == Delivered && o.nextRetry == None)
            && (!Is2xx(code) && attempts >= 5 ==> o.status == Failed && o.nextRetry == None)
            && (!Is2xx(code) && attempts < 5 ==>
                  o.status == Retrying
                  && o.nextRetry == Some(now + if attempts <= 1 then 60 else if attempts == 2 then 300
                                               else if attempts == 3 then 1800 else 7200))
  {
    assert |RETRY_DELAYS| == 5;
  }

  /** A delivery that waits, whose time has come, and whose hook is there, enabled and has its
      secret. */
  predicate IsReady(q: Queue, i: int, now: Time)
    requires 0 <= i < |q.deliveries|
  {
    var d := q.deliveries[i];
    && d.status in {Pending, Retrying} && d.nextRetry.Some? && d.nextRetry.value <= now
    && d.hook < |q.hooks| && !q.hooks[d.hook].deleted && q.hooks[d.hook].enabled && q.hooks[d.hook].secret
  }

  lemma {:induction false} ClaimsSplit(hooks: seq<Hook>, ds: seq<Delivery>, now: Time, limit: nat, i: nat)
    requires i < |ds| && Ready(hooks, ds[i], now) && i !in Claims(hooks, ds, now, limit)
    ensures |Claims(hooks, ds[..i], now, limit)| == limit
    ensures Claims(hooks, ds, now, limit) == Claims(hooks, ds[..i], now, limit)
  {
    var n := |ds| - 1;
    if i < n {
      assert ds[..n][..i] == ds[..i] && ds[..n][i] == ds[i];
      ClaimsSplit(hooks, ds[..n], now, limit, i);
    }
  }

  /** What a tick claims are the first ready deliveries, in order: a ready one is left out only
      when the limit was reached by deliveries before it. */
  lemma ClaimsAreFirst(q: Queue, now: Time, limit: nat, i: nat)
    requires i < |q.deliveries|
    ensures var ids := Claims(q.hooks, q.deliveries, now, limit);
            && |ids| <= limit && (forall j, k :: 0 <= j < k < |ids| ==> ids[j] < ids[k])
            && (i in ids ==> IsReady(q, i, now))
            && (IsReady(q, i, now) && i !in ids ==> |ids| == limit && forall k :: 0 <= k < |ids| ==> ids[k] < i)
  {
    ClaimsMeaning(q.hooks, q.deliveries, now, limit);
    if IsReady(q, i, now) && i !in Claims(q.hooks, q.deliveries, now, limit) {
      ClaimsSplit(q.hooks, q.deliveries, now, limit, i);
    }
  }

  /** A tick makes one attempt at every delivery it claims, and touches nothing else. */
  lemma TickEffects(q: Queue, now: Time, limit: nat, code: Id -> Option<int>, at: Id -> Time, i: nat)
    requires i < |q.deliveries|
    ensures var q1 := Tick(q, now, limit, code, at);
            && q1.hooks == q.hooks && |q1.deliveries| == |q.deliveries|
            && var d, d1, n := q.deliveries[i], q1.deliveries[i], q.deliveries[i].attempts + 1;
            && (i !in Claims(q.hooks, q.deliveries, now, limit) ==> d1 == d)
            && (i in Claims(q.hooks, q.deliveries, now, limit) ==>
                  && d1 == d.(status := d1.status, attempts := n, code := code(i), nextRetry := d1.nextRetry)
                  && (Is2xx(code(i)) ==> d1.status == Delivered && d1.nextRetry == None)
                  && (!Is2xx(code(i)) && n >= 5 ==> d1.status == Failed && d1.nextRetry == None)
                  && (!Is2xx(code(i)) && n < 5 ==>
                        d1.status == Retrying
                        && d1.nextRetry == Some(at(i) + if n <= 1 then 60 else if n == 2 then 300
                                                        else if n == 3 then 1800 else 7200)))
  {
    OutcomeExactly(q.deliveries[i].attempts + 1, code(i), at(i));
    var d := q.deliveries[i];
    assert Attempt(code, at)(i, d) == Resolved(Taken(d), code(i), at(i));
    AttemptIs(d, code(i), at(i));
  }

  lemma AttemptIs(d: Delivery, code: Option<int>, now: Time)
    ensures var o := DeliveryResult(d.attempts + 1, code, now);
            Resolved(Taken(d), code, now)
            == d.(status := o.status, attempts := d.attempts + 1, code := o.code, nextRetry := o.nextRetry)
  {
  }

  // ------------------------------------------------------------------------------ what is reported

  /** The places, among the first `k` claimed, whose attempt was answered with a 2xx code. */
  function Good(ids: seq<Id>, k: nat, code: Id -> Option<int>): set<nat>
    requires k <= |ids|
  {
    set j: nat | j < k && Is2xx(code(ids[j]))
  }

  /** And those that were not, and have attempts left. */
  function Again(ds: seq<Delivery>, ids: seq<Id>, k: nat, code: Id -> Option<int>): set<nat>
    requires k <= |ids| && forall j :: 0 <= j < |ids| ==> ids[j] < |ds|
  {
    set j: nat | j < k && !Is2xx(code(ids[j])) && ds[ids[j]].attempts + 1 < 5
  }

  /** A tick reports how many deliveries were answered with a 2xx code, how many others have
      attempts left, and how many have not. */
  lemma {:induction false} EndsExactly(ds: seq<Delivery>, ids: seq<Id>, k: nat, code: Id -> Option<int>, at: Id -> Time)
    requires k <= |ids| && forall j :: 0 <= j < |ids| ==> ids[j] < |ds|
    ensures var t := Ends(ds, ids, k, code, at);
            && t.delivered == |Good(ids, k, code)| && t.retrying == |Again(ds, ids, k, code)|
            && t.failed == k - t.delivered - t.retrying
  {
    if k > 0 {
      EndsExactly(ds, ids, k - 1, code, at);
      GoodNext(ids, k - 1, code);
      AgainNext(ds, ids, k - 1, code);
      OutcomeExactly(ds[ids[k - 1]].attempts + 1, code(ids[k - 1]), at(ids[k - 1]));
    }
  }

  lemma GoodNext(ids: seq<Id>, k: nat, code: Id -> Option<int>)
    requires k < |ids|
    ensures |Good(ids, k + 1, code)| == |Good(ids, k, code)| + if Is2xx(code(ids[k])) then 1 else 0
  {
    var before, after := Good(ids, k, code), Good(ids, k + 1, code);
    assert after == before + if k in after then {k} else {};
  }

  lemma AgainNext(ds: seq<Delivery>, ids: seq<Id>, k: nat, code: Id -> Option<int>)
    requires k < |ids| && forall j :: 0 <= j < |ids| ==> ids[j] < |ds|
    ensures |Again(ds, ids, k + 1, code)|
            == |Again(ds, ids, k, code)| + if !Is2xx(code(ids[k])) && ds[ids[k]].attempts + 1 < 5 then 1 else 0
  {
    var before, after := Again(ds, ids, k, code), Again(ds, ids, k + 1, code);
    assert after == before + if k in after then {k} else {};
  }

  // ------------------------------------------------------------------------------ events, retries

  predicate IsWanted(hooks: seq<Hook>, h: int, tenant: nat, event: string)
    requires 0 <= h < |hooks|
  {
    && hooks[h].tenant == tenant && !hooks[h].deleted && hooks[h].enabled
    && (event in hooks[h].events || "*" in hooks[h].events)
  }

  function HooksOf(ds: seq<Delivery>): seq<Id> {
    seq(|ds|, i requires 0 <= i < |ds| => ds[i].hook)
  }

  lemma {:induction false} NewDeliveriesExactly(hooks: seq<Hook>, tenant: nat, event: string, now: Time)
    ensures var ds := NewDeliveries(hooks, tenant, event, now);
            && (forall i :: 0 <= i < |ds| ==>
                  ds[i] == Delivery(tenant, ds[i].hook, event, Pending, 0, None, Some(now)) && ds[i].hook < |hooks|)
            && (forall h :: h in HooksOf(ds) <==> 0 <= h < |hooks| && IsWanted(hooks, h, tenant, event))
            && (forall i, j :: 0 <= i < j < |ds| ==> ds[i].hook < ds[j].hook)
  {
    if hooks != [] {
      var n := |hooks| - 1;
      NewDeliveriesExactly(hooks[..n], tenant, event, now);
      var before, ds := NewDeliveries(hooks[..n], tenant, event, now), NewDeliveries(hooks, tenant, event, now);
      assert forall h :: 0 <= h < n ==> IsWanted(hooks[..n], h, tenant, event) == IsWanted(hooks, h, tenant, event);
      assert HooksOf(ds) == HooksOf(before) + if IsWanted(hooks, n, tenant, event) then [n] else [];
    }
  }

  /** An event adds, behind the old deliveries, one pending delivery for each hook of the tenant
      that is there, enabled and subscribed to the event or to all, in the order of the hooks. */
  lemma EventEffects(q: Queue, tenant: nat, event: string, now: Time)
    ensures var q1, old1 := QueueEvent(q, tenant, event, now), |q.deliveries|;
            && q1.hooks == q.hooks && |q1.deliveries| >= old1 && q1.deliveries[..old1] == q.deliveries
            && (forall i :: old1 <= i < |q1.deliveries| ==>
                  q1.deliveries[i] == Delivery(tenant, q1.deliveries[i].hook, event, Pending, 0, None, Some(now)))
            && (forall h :: h in HooksOf(q1.deliveries[old1..])
                            <==> 0 <= h < |q.hooks| && IsWanted(q.hooks, h, tenant, event))
            && (forall i, j :: old1 <= i < j < |q1.deliveries| ==> q1.deliveries[i].hook < q1.deliveries[j].hook)
  {
    NewDeliveriesExactly(q.hooks, tenant, event, now);
    assert QueueEvent(q, tenant, event, now).deliveries[|q.deliveries|..] == NewDeliveries(q.hooks, tenant, event, now);
  }

  /** A manual retry of the tenant's own delivery to that hook makes it new again; any other
      changes nothing. */
  lemma RetryEffects(q: Queue, tenant: nat, hook: Id, id: Id, now: Time)
    ensures var q1 := Retry(q, tenant, hook, id, now);
            if id < |q.deliveries| && q.deliveries[id].tenant == tenant && q.deliveries[id].hook == hook
            then q1 == q.(deliveries := q.deliveries[id := q.deliveries[id].(status := Pending, attempts := 0,
                                                                             nextRetry := Some(now))])
            else q1 == q
  {
  }
}
