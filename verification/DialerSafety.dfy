/**
 * Safety of the campaign dialer over whole runs: bounded dialing, concurrency limits, and the
 * legality of every dispatched call.
 */
module DialerSafety {
  import opened Wrappers
  import opened Campaigns
  import opened Dialer

  // ------------------------------------------------------------------------------- claiming

  ghost predicate DistinctOrder(w: World) {
    forall i, j :: 0 <= i < j < |w.order| ==> w.order[i] != w.order[j]
  }

  /** `item` was claimed from `w0`: its contact was due, not blocked, in a running campaign. */
  ghost predicate ClaimedFrom(w0: World, item: Claim, now: Instant) {
    && item.id in w0.contacts && Claimable(w0, item.id, now)
    && item.contact == ClaimedContact(w0.contacts[item.id])
    && item.agent == w0.campaigns[item.contact.campaign].agent
    && item.schedule == w0.campaigns[item.contact.campaign].schedule
  }

  ghost predicate DistinctClaims(claimed: seq<Claim>) {
    forall i, j :: 0 <= i < j < |claimed| ==> claimed[i].id != claimed[j].id
  }

  /** `w` is `w0` with exactly the claimed contacts changed, each as its claim says. */
  ghost predicate Claims(w0: World, w: World, claimed: seq<Claim>, now: Instant) {
    && w == w0.(contacts := w.contacts) && w.contacts.Keys == w0.contacts.Keys
    && DistinctClaims(claimed)
    && (forall j :: 0 <= j < |claimed| ==>
          ClaimedFrom(w0, claimed[j], now) && w.contacts[claimed[j].id] == claimed[j].contact)
    && (forall id :: id in w0.contacts && (forall j :: 0 <= j < |claimed| ==> claimed[j].id != id) ==>
          w.contacts[id] == w0.contacts[id])
  }

  ghost predicate NotYet(w: World, claimed: seq<Claim>, i: nat) {
    forall j, m :: 0 <= j < |claimed| && i <= m < |w.order| ==> claimed[j].id != w.order[m]
  }

  lemma ClaimOneClaims(w0: World, w: World, i: nat, now: Instant, claimed: seq<Claim>)
    requires Listed(w) && DistinctOrder(w) && i < |w.order| && Claimable(w, w.order[i], now)
    requires Claims(w0, w, claimed, now) && NotYet(w, claimed, i)
    ensures var (w1, item) := ClaimOne(w, w.order[i]);
            Claims(w0, w1, claimed + [item], now) && NotYet(w1, claimed + [item], i + 1)
  {
    var id := w.order[i];
    var (w1, item) := ClaimOne(w, id);
    assert w.contacts[id] == w0.contacts[id];
    var all := claimed + [item];
    forall other | other in w0.contacts && (forall j :: 0 <= j < |all| ==> all[j].id != other)
      ensures w1.contacts[other] == w0.contacts[other]
    {
      assert all[|claimed|].id == id;
      assert forall j :: 0 <= j < |claimed| ==> all[j] == claimed[j];
    }
  }

  lemma {:induction false} ClaimFromClaims(w0: World, w: World, i: nat, now: Instant, limit: int, claimed: seq<Claim>)
    requires Listed(w) && DistinctOrder(w) && i <= |w.order|
    requires Claims(w0, w, claimed, now) && NotYet(w, claimed, i)
    ensures var (w', claimed') := ClaimFrom(w, i, now, limit, claimed); Claims(w0, w', claimed', now)
    decreases |w.order| - i
  {
    if i == |w.order| {
    } else if !Claimable(w, w.order[i], now) {
      ClaimFromClaims(w0, w, i + 1, now, limit, claimed);
    } else {
      var (w1, item) := ClaimOne(w, w.order[i]);
      ClaimOneClaims(w0, w, i, now, claimed);
      if |claimed| + 1 < limit {
        ClaimFromClaims(w0, w1, i + 1, now, limit, claimed + [item]);
      }
    }
  }

  // ------------------------------------------------------------------------- bounded dialing

  function Dials(log: seq<Dispatch>, contact: Id): nat {
    if log == [] then 0
    else Dials(log[..|log| - 1], contact) + if log[|log| - 1].contact == contact then 1 else 0
  }

  lemma DialsAppend(log: seq<Dispatch>, d: Dispatch, contact: Id)
    ensures Dials(log + [d], contact) == Dials(log, contact) + if d.contact == contact then 1 else 0
  {
    assert (log + [d])[..|log|] == log;
  }

  /** Dials never exceed attempts, nor the bound; a contact that may be claimed has one left. */
  ghost predicate Budget(c: Contact, dials: nat, bound: int) {
    && dials <= c.attempts && dials <= Max(1, bound)
    && (c.status.Pending? || c.status.Retry? ==> dials < Max(1, bound))
  }

  ghost predicate Bounded(w: World, bound: int) {
    && Listed(w) && DistinctOrder(w)
    && (forall c :: c in w.campaigns ==> w.campaigns[c].schedule.retry.maxAttempts <= bound)
    && (forall id :: id in w.contacts ==> Budget(w.contacts[id], Dials(w.dispatches, id), bound))
    && (forall k :: 0 <= k < |w.dispatches| ==> w.dispatches[k].contact in w.contacts)
  }

  /** A claimed contact that the tick has not processed yet. */
  ghost predicate Waiting(w: World, item: Claim, bound: int) {
    && item.id in w.contacts
    && Dials(w.dispatches, item.id) < w.contacts[item.id].attempts
    && Dials(w.dispatches, item.id) < Max(1, bound)
  }

  /** Only contact `id` and its dials may differ. */
  ghost predicate OthersKept(w: World, w1: World, id: Id) {
    && w1.order == w.order && w1.campaigns == w.campaigns && w1.contacts.Keys == w.contacts.Keys
    && forall other :: other in w.contacts && other != id ==>
         w1.contacts[other] == w.contacts[other] && Dials(w1.dispatches, other) == Dials(w.dispatches, other)
  }

  lemma SetBounded(w: World, id: Id, status: ContactStatus, next: Option<Instant>, bound: int)
    requires Bounded(w, bound) && id in w.contacts && Dials(w.dispatches, id) < Max(1, bound)
    ensures var w1 := WithContact(w, id, status, next); Bounded(w1, bound) && OthersKept(w, w1, id)
  {
    assert Budget(w.contacts[id], Dials(w.dispatches, id), bound);
  }

  lemma LinkBounded(w: World, item: Claim, call: Id, now: Instant, bound: int)
    requires Bounded(w, bound) && Waiting(w, item, bound)
    ensures var w1 := Linked(w, item.id, call, now); Bounded(w1, bound) && OthersKept(w, w1, item.id)
  {
    var w1 := Linked(w, item.id, call, now);
    var d := Dispatch(item.id, call, now);
    forall id | id in w.contacts
      ensures Dials(w1.dispatches, id) == Dials(w.dispatches, id) + if item.id == id then 1 else 0
      ensures Budget(w1.contacts[id], Dials(w1.dispatches, id), bound)
    {
      DialsAppend(w.dispatches, d, id);
      assert Budget(w.contacts[id], Dials(w.dispatches, id), bound);
    }
    forall k | 0 <= k < |w1.dispatches| ensures w1.dispatches[k].contact in w1.contacts {
      if k < |w.dispatches| { assert w1.dispatches[k] == w.dispatches[k]; }
    }
  }

  lemma WithCallBounded(w: World, call: Call, bound: int)
    requires Bounded(w, bound)
    ensures Bounded(WithCall(w, call), bound)
  {
  }

  lemma DialOneBounded(zones: Zones, w: World, item: Claim, now: Instant, answer: Answer, bound: int)
    requires Bounded(w, bound) && Waiting(w, item, bound)
    ensures var w1 := DialOne(zones, w, item, now, answer).0; Bounded(w1, bound) && OthersKept(w, w1, item.id)
  {
    CarriedBounded(w, item, now, Decide(zones, w, item, now, answer), bound);
  }

  lemma CarriedBounded(w: World, item: Claim, now: Instant, d: Decision, bound: int)
    requires Bounded(w, bound) && Waiting(w, item, bound)
    ensures var w1 := CarryOut(w, item, now, d).0; Bounded(w1, bound) && OthersKept(w, w1, item.id)
  {
    if d.LoseCall? {
      LostCallBounded(w, item, now, bound);
    } else if d.Connect? {
      ConnectedBounded(w, item, now, bound);
    } else if d.Postpone? {
      SetBounded(w, item.id, Retry, Some(now + d.delay), bound);
    } else if d.GiveUp? {
      SetBounded(w, item.id, Ended(Failed), None, bound);
    }
  }

  lemma LostCallBounded(w: World, item: Claim, now: Instant, bound: int)
    requires Bounded(w, bound) && Waiting(w, item, bound)
    ensures var w1 := CarryOut(w, item, now, LoseCall).0; Bounded(w1, bound) && OthersKept(w, w1, item.id)
  {
    var called, later := WithCall(w, CallFor(item)), Some(now + 300 * SECOND);
    WithCallBounded(w, CallFor(item), bound);
    SetBounded(called, item.id, Retry, later, bound);
    OthersSince(w, called, WithContact(called, item.id, Retry, later), item.id);
  }

  lemma ConnectedBounded(w: World, item: Claim, now: Instant, bound: int)
    requires Bounded(w, bound) && Waiting(w, item, bound)
    ensures var w1 := CarryOut(w, item, now, Connect).0; Bounded(w1, bound) && OthersKept(w, w1, item.id)
  {
    var called := WithCall(w, CallFor(item));
    WithCallBounded(w, CallFor(item), bound);
    LinkBounded(called, item, w.nextCall, now, bound);
    OthersSince(w, called, Linked(called, item.id, w.nextCall, now), item.id);
  }

  lemma OthersSince(w: World, called: World, w1: World, id: Id)
    requires OthersKept(called, w1, id) && called == w.(calls := called.calls, nextCall := called.nextCall)
    ensures OthersKept(w, w1, id)
  {
  }

  lemma {:induction false} DialFromBounded(
    zones: Zones, w: World, claimed: seq<Claim>, k: nat, now: Instant, answers: nat -> Answer, t: Totals, bound: int)
    requires k <= |claimed| && Bounded(w, bound) && DistinctClaims(claimed)
    requires forall j :: k <= j < |claimed| ==> Waiting(w, claimed[j], bound)
    ensures Bounded(DialFrom(zones, w, claimed, k, now, answers, t).0, bound)
    decreases |claimed| - k
  {
    if k < |claimed| {
      var (w1, v) := DialOne(zones, w, claimed[k], now, answers(k));
      DialOneBounded(zones, w, claimed[k], now, answers(k), bound);
      forall j | k + 1 <= j < |claimed| ensures Waiting(w1, claimed[j], bound) {
        assert Waiting(w, claimed[j], bound) && claimed[j].id != claimed[k].id;
      }
      if !v.Crashed? { DialFromBounded(zones, w1, claimed, k + 1, now, answers, Counted(t, v), bound); }
    }
  }

  lemma ClaimsWaiting(w0: World, w: World, claimed: seq<Claim>, now: Instant, bound: int)
    requires Bounded(w0, bound) && Claims(w0, w, claimed, now)
    ensures Bounded(w, bound) && forall j :: 0 <= j < |claimed| ==> Waiting(w, claimed[j], bound)
  {
    forall id | id in w.contacts ensures Budget(w.contacts[id], Dials(w.dispatches, id), bound) {
      assert Budget(w0.contacts[id], Dials(w0.dispatches, id), bound);
      if j :| 0 <= j < |claimed| && claimed[j].id == id {
        assert ClaimedFrom(w0, claimed[j], now);
      }
    }
    forall j | 0 <= j < |claimed| ensures Waiting(w, claimed[j], bound) {
      var id := claimed[j].id;
      assert ClaimedFrom(w0, claimed[j], now);
      assert Budget(w0.contacts[id], Dials(w0.dispatches, id), bound);
    }
  }

  lemma TickBounded(zones: Zones, w: World, now: Instant, claimNow: Instant, answers: nat -> Answer, bound: int)
    requires Bounded(w, bound)
    ensures Bounded(Tick(zones, w, now, claimNow, answers).world, bound)
  {
    var (w1, claimed) := ClaimFrom(w, 0, claimNow, CLAIM_LIMIT, []);
    ClaimFromClaims(w, w, 0, claimNow, CLAIM_LIMIT, []);
    ClaimsWaiting(w, w1, claimed, claimNow, bound);
    DialFromBounded(zones, w1, claimed, 0, now, answers, Totals(0, 0, 0), bound);
  }

  lemma {:induction false} ContactOfIn(w: World, call: Id, i: nat)
    requires Listed(w) && i <= |w.order|
    ensures var r := ContactOf(w, call, i);
            r.Some? ==> r.value in w.contacts && w.contacts[r.value].lastCall == Some(call)
    decreases |w.order| - i
  {
    if i < |w.order| { ContactOfIn(w, call, i + 1); }
  }

  /** The end of a call, reported any number of times, grants no dial beyond the bound. */
  lemma UpdateBounded(w: World, call: Id, status: Option<CallStatus>, now: Instant, bound: int)
    requires Bounded(w, bound)
    ensures Bounded(UpdateInternalCall(w, call, status, now), bound)
  {
    if call in w.calls {
      var updated := if status.Some? then w.calls[call].(status := status.value) else w.calls[call];
      var w1 := w.(calls := w.calls[call := updated]);
      if updated.campaign.Some? && updated.status.Finished? {
        SettleBounded(w1, call, updated.status.how, now, bound);
      }
    }
  }

  lemma SettleBounded(w: World, call: Id, how: Outcome, now: Instant, bound: int)
    requires Bounded(w, bound)
    ensures Bounded(Settle(w, call, how, now), bound)
  {
    ContactOfIn(w, call, 0);
    match ContactOf(w, call, 0)
    case None =>
    case Some(id) =>
      assert Budget(w.contacts[id], Dials(w.dispatches, id), bound);
      if w.contacts[id].campaign in w.campaigns {
        var c := w.contacts[id];
        var next := RetryAt(how, c.attempts, w.campaigns[c.campaign].schedule.retry, now);
        SettledBounded(w, id, if next.Some? then Retry else if how == Answered then Done else Ended(how), next, bound);
      }
  }

  /** A contact may wait for a retry only when it has a dial left. */
  lemma SettledBounded(w: World, id: Id, status: ContactStatus, next: Option<Instant>, bound: int)
    requires Bounded(w, bound) && id in w.contacts && w.contacts[id].campaign in w.campaigns
    requires status.Pending? || status.Retry? ==>
               w.contacts[id].attempts < w.campaigns[w.contacts[id].campaign].schedule.retry.maxAttempts
    ensures Bounded(WithStats(WithContact(w, id, status, next), w.contacts[id].campaign), bound)
  {
    assert Budget(w.contacts[id], Dials(w.dispatches, id), bound);
  }

  // ----------------------------------------------------------------------------- concurrency

  /** No tenant and no campaign gets more active calls than it had or than its limit. */
  ghost predicate NoNewExcess(w: World, w1: World) {
    && w1.planLimits == w.planLimits && w1.campaigns == w.campaigns
    && (forall t: Id :: |ActiveCalls(w1, t)| <= Max(|ActiveCalls(w, t)|, PlanLimit(w, t)))
    && (forall t: Id, c: Id :: c in w.campaigns ==>
          |CampaignCalls(w1, t, c)| <= Max(|CampaignCalls(w, t, c)|, CampaignLimit(w, t, w.campaigns[c].schedule)))
  }

  ghost predicate CallsNumbered(w: World) {
    forall id :: id in w.calls ==> id < w.nextCall
  }

  lemma OneMore(s: set<Id>, s1: set<Id>, id: Id)
    requires id !in s && s1 == s + {id}
    ensures |s1| == |s| + 1
  {
  }

  lemma OneMoreForTenant(w: World, call: Call, t: Id)
    requires CallsNumbered(w) && IsActive(call.status)
    ensures ActiveCalls(WithCall(w, call), t) == ActiveCalls(w, t) + if t == call.tenant then {w.nextCall} else {}
    ensures w.nextCall !in ActiveCalls(w, t)
  {
  }

  lemma OneMoreForCampaign(w: World, call: Call, t: Id, c: Id)
    requires CallsNumbered(w) && IsActive(call.status)
    ensures CampaignCalls(WithCall(w, call), t, c)
            == CampaignCalls(w, t, c) + if t == call.tenant && call.campaign == Some(c) then {w.nextCall} else {}
    ensures w.nextCall !in CampaignCalls(w, t, c)
  {
  }

  lemma SameCalls(w: World, w1: World)
    requires w1.calls == w.calls
    ensures forall t: Id :: ActiveCalls(w1, t) == ActiveCalls(w, t)
    ensures forall t: Id, c: Id :: CampaignCalls(w1, t, c) == CampaignCalls(w, t, c)
  {
  }

  /** A call added below both limits adds no excess. */
  lemma CallAdded(w: World, item: Claim)
    requires CallsNumbered(w) && item.contact.campaign in w.campaigns && !AtCapacity(w, item)
    requires item.schedule == w.campaigns[item.contact.campaign].schedule
    ensures NoNewExcess(w, WithCall(w, CallFor(item)))
  {
    var w1 := WithCall(w, CallFor(item));
    forall t: Id ensures |ActiveCalls(w1, t)| <= Max(|ActiveCalls(w, t)|, PlanLimit(w, t)) {
      AddedForTenant(w, item, t);
    }
    forall t: Id, c: Id | c in w.campaigns
      ensures |CampaignCalls(w1, t, c)| <= Max(|CampaignCalls(w, t, c)|, CampaignLimit(w, t, w.campaigns[c].schedule))
    {
      AddedForCampaign(w, item, t, c);
    }
  }

  lemma AddedForTenant(w: World, item: Claim, t: Id)
    requires CallsNumbered(w) && !AtCapacity(w, item)
    ensures |ActiveCalls(WithCall(w, CallFor(item)), t)| <= Max(|ActiveCalls(w, t)|, PlanLimit(w, t))
  {
    OneMoreForTenant(w, CallFor(item), t);
    if t == item.contact.tenant { OneMore(ActiveCalls(w, t), ActiveCalls(WithCall(w, CallFor(item)), t), w.nextCall); }
  }

  lemma AddedForCampaign(w: World, item: Claim, t: Id, c: Id)
    requires CallsNumbered(w) && !AtCapacity(w, item) && c in w.campaigns
    requires c == item.contact.campaign ==> item.schedule == w.campaigns[c].schedule
    ensures |CampaignCalls(WithCall(w, CallFor(item)), t, c)|
            <= Max(|CampaignCalls(w, t, c)|, CampaignLimit(w, t, w.campaigns[c].schedule))
  {
    OneMoreForCampaign(w, CallFor(item), t, c);
    if t == item.contact.tenant && c == item.contact.campaign {
      OneMore(CampaignCalls(w, t, c), CampaignCalls(WithCall(w, CallFor(item)), t, c), w.nextCall);
    }
  }

  lemma SameExcess(w: World, v: World, w1: World)
    requires NoNewExcess(w, v) && w1 == v.(contacts := w1.contacts, dispatches := w1.dispatches)
    ensures NoNewExcess(w, w1)
  {
    SameCalls(v, w1);
  }

  lemma DialOneCapacity(zones: Zones, w: World, item: Claim, now: Instant, answer: Answer)
    requires CallsNumbered(w) && item.contact.campaign in w.campaigns
    requires item.schedule == w.campaigns[item.contact.campaign].schedule
    ensures var w1 := DialOne(zones, w, item, now, answer).0; NoNewExcess(w, w1) && CallsNumbered(w1)
  {
    var d := Decide(zones, w, item, now, answer);
    assert d.LoseCall? || d.Connect? ==> !AtCapacity(w, item);
    CarriedCapacity(w, item, now, d);
  }

  lemma CarriedCapacity(w: World, item: Claim, now: Instant, d: Decision)
    requires CallsNumbered(w) && item.contact.campaign in w.campaigns
    requires item.schedule == w.campaigns[item.contact.campaign].schedule
    requires d.LoseCall? || d.Connect? ==> !AtCapacity(w, item)
    ensures var w1 := CarryOut(w, item, now, d).0; NoNewExcess(w, w1) && CallsNumbered(w1)
  {
    var w1 := CarryOut(w, item, now, d).0;
    if d.LoseCall? || d.Connect? {
      CallAdded(w, item);
      SameExcess(w, WithCall(w, CallFor(item)), w1);
    } else {
      SameCalls(w, w1);
    }
  }

  lemma NoNewExcessThen(w: World, w1: World, w2: World)
    requires NoNewExcess(w, w1) && NoNewExcess(w1, w2)
    ensures NoNewExcess(w, w2)
  {
  }

  lemma {:induction false} DialFromCapacity(
    zones: Zones, w: World, claimed: seq<Claim>, k: nat, now: Instant, answers: nat -> Answer, t: Totals)
    requires k <= |claimed| && CallsNumbered(w)
    requires Scheduled(w, claimed)
    ensures var w' := DialFrom(zones, w, claimed, k, now, answers, t).0; NoNewExcess(w, w') && CallsNumbered(w')
    decreases |claimed| - k
  {
    if k < |claimed| {
      var (w1, v) := DialOne(zones, w, claimed[k], now, answers(k));
      DialOneCapacity(zones, w, claimed[k], now, answers(k));
      if !v.Crashed? {
        DialFromCapacity(zones, w1, claimed, k + 1, now, answers, Counted(t, v));
        NoNewExcessThen(w, w1, DialFrom(zones, w1, claimed, k + 1, now, answers, Counted(t, v)).0);
      }
    } else {
      SameCalls(w, w);
    }
  }

  /** Every claim carries its campaign's schedule. */
  ghost predicate Scheduled(w: World, claimed: seq<Claim>) {
    forall j :: 0 <= j < |claimed| ==>
      claimed[j].contact.campaign in w.campaigns
        && claimed[j].schedule == w.campaigns[claimed[j].contact.campaign].schedule
  }

  lemma ClaimsScheduled(w: World, claimNow: Instant)
    requires Listed(w) && DistinctOrder(w)
    ensures var (w1, claimed) := ClaimFrom(w, 0, claimNow, CLAIM_LIMIT, []);
            w1 == w.(contacts := w1.contacts) && Scheduled(w1, claimed)
  {
    var (w1, claimed) := ClaimFrom(w, 0, claimNow, CLAIM_LIMIT, []);
    ClaimFromClaims(w, w, 0, claimNow, CLAIM_LIMIT, []);
    forall j | 0 <= j < |claimed| ensures ClaimedFrom(w, claimed[j], claimNow) {
    }
  }

  /** A tick never takes a tenant or a campaign above its limit, whatever the outside answers,
      and whatever other calls there already are. */
  lemma TickCapacity(zones: Zones, w: World, now: Instant, claimNow: Instant, answers: nat -> Answer)
    requires Listed(w) && DistinctOrder(w) && CallsNumbered(w)
    ensures var w' := Tick(zones, w, now, claimNow, answers).world; NoNewExcess(w, w') && CallsNumbered(w')
  {
    var (w1, claimed) := ClaimFrom(w, 0, claimNow, CLAIM_LIMIT, []);
    ClaimsScheduled(w, claimNow);
    DialFromCapacity(zones, w1, claimed, 0, now, answers, Totals(0, 0, 0));
    SameCalls(w, w1);
    NoNewExcessThen(w, w1, Tick(zones, w, now, claimNow, answers).world);
  }
}
