/**
 * The repository's delivery records and the tick that sends them, updating them in place.
 */
module WebhookStore {
  import opened Wrappers
  import opened Webhooks

  /** The records after the first `k` of the claimed deliveries have been sent. */
  function Settled(taken: seq<Delivery>, ids: seq<Id>, k: nat, code: Id -> Option<int>,
                   at: Id -> Time): (r: seq<Delivery>)
    requires k <= |ids| && forall j :: 0 <= j < |ids| ==> ids[j] < |taken|
    ensures |r| == |taken|
  {
    if k == 0 then taken
    else
      var before, id := Settled(taken, ids, k - 1, code, at), ids[k - 1];
      before[id := Resolved(before[id], code(id), at(id))]
  }

  predicate Ascending(ids: seq<Id>, n: nat) {
    (forall j, k :: 0 <= j < k < |ids| ==> ids[j] < ids[k]) && forall j :: 0 <= j < |ids| ==> ids[j] < n
  }

  lemma {:induction false} SettledAt(taken: seq<Delivery>, ids: seq<Id>, k: nat, code: Id -> Option<int>,
                                     at: Id -> Time, i: nat)
    requires Ascending(ids, |taken|) && k <= |ids| && i < |taken|
    ensures Settled(taken, ids, k, code, at)[i] ==
            if i in ids[..k] then Resolved(taken[i], code(i), at(i)) else taken[i]
  {
    if k > 0 {
      SettledAt(taken, ids, k - 1, code, at, i);
      assert ids[..k] == ids[..k - 1] + [ids[k - 1]];
      assert ids[k - 1] !in ids[..k - 1];
    }
  }

  /** Claiming and then settling every claim is the tick. */
  lemma SettledIsTick(q: Queue, now: Time, limit: nat, code: Id -> Option<int>, at: Id -> Time)
    ensures var (claimed, ids) := ClaimDeliveries(q, now, limit);
            Ascending(ids, |claimed.deliveries|)
            && claimed.(deliveries := Settled(claimed.deliveries, ids, |ids|, code, at)) ==
              Tick(q, now, limit, code, at)
  {
    var (claimed, ids) := ClaimDeliveries(q, now, limit);
    ClaimsMeaning(q.hooks, q.deliveries, now, limit);
    var settled, after := Settled(claimed.deliveries, ids, |ids|, code, at), Tick(q, now, limit, code, at).deliveries;
    forall i | 0 <= i < |settled| ensures settled[i] == after[i] {
      SettledAt(claimed.deliveries, ids, |ids|, code, at, i);
      assert ids[..|ids|] == ids;
    }
  }

  datatype Tally = Tally(delivered: nat, retrying: nat, failed: nat)

  function Counted(t: Tally, status: Status): Tally {
    if status == Delivered then t.(delivered := t.delivered + 1)
    else if status == Retrying then t.(retrying := t.retrying + 1)
    else t.(failed := t.failed + 1)
  }

  /** How the first `k` claimed end. */
  function Ends(ds: seq<Delivery>, ids: seq<Id>, k: nat, code: Id -> Option<int>, at: Id -> Time): (t: Tally)
    requires k <= |ids| && forall j :: 0 <= j < |ids| ==> ids[j] < |ds|
    ensures t.delivered + t.retrying + t.failed == k
  {
    if k == 0 then Tally(0, 0, 0)
    else
      var id := ids[k - 1];
      Counted(Ends(ds, ids, k - 1, code, at), DeliveryResult(ds[id].attempts + 1, code(id), at(id)).status)
  }

  /** The next claimed delivery is still as it was claimed; settling it counts its end. */
  lemma SettleNext(q: Queue, now: Time, limit: nat, k: nat, code: Id -> Option<int>, at: Id -> Time,
                   taken: seq<Delivery>, ids: seq<Id>)
      returns (id: Id, before: seq<Delivery>, status: Status)
    requires ids == Claims(q.hooks, q.deliveries, now, limit) && taken == Changed(q.deliveries, ids, TakenAt)
    requires k < |ids|
    ensures id == ids[k] < |before| && before == Settled(taken, ids, k, code, at)
    ensures Settled(taken, ids, k + 1, code, at) == before[id := Resolved(before[id], code(id), at(id))]
    ensures status == DeliveryResult(before[id].attempts, code(id), at(id)).status
    ensures Ends(q.deliveries, ids, k + 1, code, at) == Counted(Ends(q.deliveries, ids, k, code, at), status)
  {
    ClaimsMeaning(q.hooks, q.deliveries, now, limit);
    id, before := ids[k], Settled(taken, ids, k, code, at);
    SettledAt(taken, ids, k, code, at, id);
    assert id !in ids[..k] && id in ids;
    status := DeliveryResult(before[id].attempts, code(id), at(id)).status;
  }

  class WebhookRepository {
    var hooks: seq<Hook>
    var deliveries: seq<Delivery>

    ghost function State(): Queue reads this {
      Queue(hooks, deliveries)
    }

    constructor ()
      ensures State() == EMPTY
    {
      hooks, deliveries := [], [];
    }

    method QueueWebhookEvent(tenant: nat, event: string, now: Time) returns (count: nat)
      modifies this
      ensures State() == QueueEvent(old(State()), tenant, event, now)
      ensures count == |deliveries| - |old(deliveries)|
    {
      count := 0;
      var i := 0;
      while i < |hooks|
        invariant 0 <= i <= |hooks| && hooks == old(hooks)
        invariant deliveries == old(deliveries) + NewDeliveries(hooks[..i], tenant, event, now)
        invariant count == |deliveries| - |old(deliveries)|
      {
        assert hooks[..i + 1][..i] == hooks[..i];
        var hook := hooks[i];
        if hook.tenant == tenant && !hook.deleted && hook.enabled && (event in hook.events || "*" in hook.events) {
          deliveries := deliveries + [Delivery(tenant, i, event, Pending, 0, None, Some(now))];
          count := count + 1;
        }
        i := i + 1;
      }
      assert hooks[..i] == hooks;
    }

    method ClaimWebhookDeliveries(now: Time, limit: nat) returns (ids: seq<Id>)
      modifies this
      ensures (State(), ids) == ClaimDeliveries(old(State()), now, limit)
    {
      ids := [];
      var i := 0;
      while i < |deliveries|
        invariant 0 <= i <= |old(deliveries)| == |deliveries| && hooks == old(hooks)
        invariant ids == Claims(hooks, old(deliveries)[..i], now, limit)
        invariant forall j :: 0 <= j < |deliveries| ==>
                    deliveries[j] == if j in ids then Taken(old(deliveries)[j]) else old(deliveries)[j]
      {
        assert old(deliveries)[..i + 1][..i] == old(deliveries)[..i];
        var item := deliveries[i];
        if |ids| < limit && Waiting(item) && item.nextRetry.Some? && item.nextRetry.value <= now
          && Reachable(hooks, item) {
          deliveries := deliveries[i := item.(status := Processing, attempts := item.attempts + 1)];
          ids := ids + [i];
        }
        i := i + 1;
      }
      assert old(deliveries)[..i] == old(deliveries);
      assert deliveries == Changed(old(deliveries), ids, TakenAt);
    }

    method UpdateWebhookDelivery(id: Id, o: Outcome)
      modifies this
      ensures hooks == old(hooks)
      ensures deliveries == if id < |old(deliveries)|
                            then old(deliveries)[id := old(deliveries)[id].(status := o.status, code := o.code,
                                                                            nextRetry := o.nextRetry)]
                            else old(deliveries)
    {
      if id < |deliveries| {
        deliveries := deliveries[id := deliveries[id].(status := o.status, code := o.code, nextRetry := o.nextRetry)];
      }
    }

    /** `code(i)` is what sending delivery i gave, nothing when it raised. */
    method OutgoingWebhookTick(now: Time, limit: nat, code: Id -> Option<int>, at: Id -> Time)
      returns (claimed: nat, delivered: nat, retrying: nat, failed: nat)
      modifies this
      ensures State() == Tick(old(State()), now, limit, code, at)
      ensures claimed == |Claims(old(hooks), old(deliveries), now, limit)| == delivered + retrying + failed
      ensures Tally(delivered, retrying, failed) ==
              Ends(old(deliveries), Claims(old(hooks), old(deliveries), now, limit), claimed, code, at)
    {
      ghost var original := State();
      var ids := ClaimWebhookDeliveries(now, limit);
      var tally := SettleAll(original, now, limit, ids, code, at);
      SettledIsTick(original, now, limit, code, at);
      claimed, delivered, retrying, failed := |ids|, tally.delivered, tally.retrying, tally.failed;
    }

    /** The tick's loop over what was claimed. */
    method SettleAll(ghost q: Queue, ghost now: Time, ghost limit: nat, ids: seq<Id>,
                     code: Id -> Option<int>, at: Id -> Time)
      returns (tally: Tally)
      requires hooks == q.hooks && ids == Claims(q.hooks, q.deliveries, now, limit)
      requires deliveries == Changed(q.deliveries, ids, TakenAt)
      modifies this
      ensures hooks == old(hooks) && deliveries == Settled(old(deliveries), ids, |ids|, code, at)
      ensures tally == Ends(q.deliveries, ids, |ids|, code, at)
    {
      ghost var taken := deliveries;
      tally := Tally(0, 0, 0);
      var k := 0;
      while k < |ids|
        invariant 0 <= k <= |ids| && hooks == old(hooks)
        invariant deliveries == Settled(taken, ids, k, code, at)
        invariant tally == Ends(q.deliveries, ids, k, code, at)
      {
        ghost var id, before, end := SettleNext(q, now, limit, k, code, at, taken, ids);
        var status := SettleDelivery(ids[k], code(ids[k]), at(ids[k]));
        assert status == end;
        tally := Counted(tally, status);
        k := k + 1;
      }
    }

    /** The body of the tick's loop. */
    method SettleDelivery(id: Id, code: Option<int>, now: Time) returns (status: Status)
      requires id < |deliveries|
      modifies this
      ensures hooks == old(hooks)
      ensures deliveries == old(deliveries)[id := Resolved(old(deliveries)[id], code, now)]
      ensures status == DeliveryResult(old(deliveries)[id].attempts, code, now).status
    {
      var o := DeliveryResult(deliveries[id].attempts, code, now);
      UpdateWebhookDelivery(id, o);
      status := o.status;
    }

    method RetryWebhookDelivery(tenant: nat, hook: Id, id: Id, now: Time) returns (found: bool)
      modifies this
      ensures State() == Retry(old(State()), tenant, hook, id, now)
      ensures found <==> CanRetry(old(State()), tenant, hook, id)
    {
      if id >= |deliveries| || deliveries[id].tenant != tenant || deliveries[id].hook != hook {
        return false;
      }
      deliveries := deliveries[id := deliveries[id].(status := Pending, attempts := 0, nextRetry := Some(now))];
      return true;
    }
  }
}
