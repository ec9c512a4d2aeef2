/**
 * What becomes of every claim of a runner tick, told from the state before the tick, the clock
 * and what the outside answers.
 */
module DialerOutcomes {
  import opened Wrappers
  import opened Campaigns
  import opened Dialer
  import opened DialerSafety
  import opened DialerTicks

  // ------------------------------------------------------------------------------------- room

  /** The claims among these that are of the tenant, and of the tenant's campaign. */
  function OfTenant(claims: seq<Claim>, tenant: Id): nat {
    if claims == [] then 0
    else
      var n := |claims| - 1;
      OfTenant(claims[..n], tenant) + if claims[n].contact.tenant == tenant then 1 else 0
  }

  function OfCampaign(claims: seq<Claim>, tenant: Id, campaign: Id): nat {
    if claims == [] then 0
    else
      var n := |claims| - 1;
      OfCampaign(claims[..n], tenant, campaign)
      + if claims[n].contact.tenant == tenant && claims[n].contact.campaign == campaign then 1 else 0
  }

  /** The tenant's active calls stay below its plan, and the campaign's below the plan and its own
      limit, with the calls created for the claims `before` counted in. */
  predicate HasRoom(w: World, before: seq<Claim>, item: Claim) {
    var tenant, campaign := item.contact.tenant, item.contact.campaign;
    var plan := if tenant in w.planLimits then w.planLimits[tenant] else 50;
    var active := |ActiveCalls(w, tenant)| + OfTenant(before, tenant);
    var ofCampaign := |CampaignCalls(w, tenant, campaign)| + OfCampaign(before, tenant, campaign);
    && active < plan && ofCampaign < plan
    && (item.schedule.maxConcurrency.Parsed? && item.schedule.maxConcurrency.value.Some? ==>
          ofCampaign < item.schedule.maxConcurrency.value.value)
  }

  /** Claim `j` is looked at in legal hours and with room for a call. */
  ghost predicate Served(zones: Zones, w: World, claims: seq<Claim>, j: nat, now: Instant, answers: nat -> Answer)
    requires j < |claims|
    decreases j, 1
  {
    && LegalTime(zones, claims[j].schedule, claims[j].contact.timezone, now)
    && HasRoom(w, Callers(zones, w, claims, j, now, answers), claims[j])
  }

  predicate CreatesCall(answer: Answer) {
    answer == Connects || answer == ProvisionRaises
  }

  /** The claims before `k` for which a call is created: also when provisioning then raises. */
  ghost function Callers(zones: Zones, w: World, claims: seq<Claim>, k: nat, now: Instant,
                         answers: nat -> Answer): seq<Claim>
    requires k <= |claims|
    decreases k, 0
  {
    if k == 0 then []
    else if Served(zones, w, claims, k - 1, now, answers) && CreatesCall(answers(k - 1))
    then Callers(zones, w, claims, k - 1, now, answers) + [claims[k - 1]]
    else Callers(zones, w, claims, k - 1, now, answers)
  }

  // ---------------------------------------------------------------------------------- outcomes

  ghost predicate HasCall(w: World, id: Id, item: Claim) {
    id in w.calls && w.calls[id] == Call(item.contact.tenant, Some(item.contact.campaign), Queued)
  }

  /** The record of claim `item` after the tick; `call` is the number the next call gets. */
  ghost predicate Becomes(w: World, item: Claim, legal: bool, room: bool, now: Instant, answer: Answer, call: Id)
    requires item.id in w.contacts
  {
    var c, c' := item.contact, w.contacts[item.id];
    && (!legal ==> c' == c.(status := Retry, nextAttempt := Some(now + 300 * SECOND)))
    && (legal && !room ==> c' == c.(status := Retry, nextAttempt := Some(now + 30 * SECOND)))
    && (legal && room && answer == NotReady ==> c' == c.(status := Ended(Failed), nextAttempt := None))
    && (legal && room && (answer == UserRaises || answer == CallRaises) ==>
          c' == c.(status := Retry, nextAttempt := Some(now + 300 * SECOND)))
    && (legal && room && answer == ProvisionRaises ==>
          c' == c.(status := Retry, nextAttempt := Some(now + 300 * SECOND)) && HasCall(w, call, item))
    && (legal && room && answer == Connects ==>
          c' == c.(status := Calling, lastCall := Some(call), nextAttempt := None) && HasCall(w, call, item))
  }

  /** The calls of `w1` are those of `w` and one queued call for each of these claims, in order. */
  ghost predicate Called(w: World, w1: World, callers: seq<Claim>) {
    && w1.nextCall == w.nextCall + |callers|
    && (forall id :: id in w.calls ==> id in w1.calls && w1.calls[id] == w.calls[id])
    && (forall n :: 0 <= n < |callers| ==> HasCall(w1, w.nextCall + n, callers[n]))
    && (forall id :: id in w1.calls ==> id in w.calls || w.nextCall <= id < w1.nextCall)
  }

  ghost predicate Loaded(w: World, w1: World, callers: seq<Claim>) {
    && w1.planLimits == w.planLimits
    && (forall t: Id :: |ActiveCalls(w1, t)| == |ActiveCalls(w, t)| + OfTenant(callers, t))
    && (forall t: Id, c: Id :: |CampaignCalls(w1, t, c)| == |CampaignCalls(w, t, c)| + OfCampaign(callers, t, c))
  }

  /** What cannot be read makes the tick raise only when it is come to: a zone that is no name; the
      weekdays; on an allowed weekday the window; in legal hours the limit. */
  lemma UnreadableExactly(zones: Zones, item: Claim, now: Instant)
    ensures var own := item.contact.timezone;
            var zone := zones(if own.Some? && own.value != "" then own.value else item.schedule.timezone, now);
            Unreadable(zones, item, now) <==>
              || zone == BadName
              || (zone.At? && item.schedule.days.Malformed?)
              || (zone.At? && zone.local.weekday in item.schedule.days.value && item.schedule.window.Malformed?)
              || (LegalTime(zones, item.schedule, own, now) && item.schedule.maxConcurrency.Malformed?)
  {
  }

  lemma Permitted(zones: Zones, item: Claim, now: Instant)
    requires !Unreadable(zones, item, now)
    ensures var p := DialingAllowed(zones, item.schedule, now, item.contact.timezone);
            && !p.Raises?
            && (p.Allowed? <==> LegalTime(zones, item.schedule, item.contact.timezone, now))
            && (p.Allowed? ==> item.schedule.maxConcurrency.Parsed?)
  {
  }

  lemma RoomExactly(w: World, w1: World, callers: seq<Claim>, item: Claim)
    requires Loaded(w, w1, callers) && item.schedule.maxConcurrency.Parsed?
    ensures HasRoom(w, callers, item) <==> !AtCapacity(w1, item)
  {
    var tenant, campaign := item.contact.tenant, item.contact.campaign;
    assert |ActiveCalls(w1, tenant)| == |ActiveCalls(w, tenant)| + OfTenant(callers, tenant);
    assert |CampaignCalls(w1, tenant, campaign)|
        == |CampaignCalls(w, tenant, campaign)| + OfCampaign(callers, tenant, campaign);
  }

  lemma CarriedBecomes(w: World, item: Claim, now: Instant, d: Decision)
    requires item.id in w.contacts && w.contacts[item.id] == item.contact
    ensures var (w1, v) := CarryOut(w, item, now, d);
            && item.id in w1.contacts
            && var c' := w1.contacts[item.id];
            && (d.Postpone? ==>
                  v == d.verdict && c' == item.contact.(status := Retry, nextAttempt := Some(now + d.delay)))
            && (d.GiveUp? ==> v.Rejected? && c' == item.contact.(status := Ended(Failed), nextAttempt := None))
            && (d.LoseCall? ==>
                  v.Rejected? && c' == item.contact.(status := Retry, nextAttempt := Some(now + 300 * SECOND)))
            && (d.Connect? ==>
                  v.Dispatched?
                  && c' == item.contact.(status := Calling, lastCall := Some(w.nextCall), nextAttempt := None))
  {
  }

  lemma CarriedCall(w: World, item: Claim, now: Instant, d: Decision)
    ensures var w1 := CarryOut(w, item, now, d).0;
            && w1.planLimits == w.planLimits
            && (if d.LoseCall? || d.Connect?
                then w1.calls == w.calls[w.nextCall := CallFor(item)] && w1.nextCall == w.nextCall + 1
                else w1.calls == w.calls && w1.nextCall == w.nextCall)
  {
  }

  /** One claim, by cases on the time, the room and the answer. */
  lemma DialOneBecomes(zones: Zones, w: World, item: Claim, now: Instant, answer: Answer)
    requires item.id in w.contacts && w.contacts[item.id] == item.contact && !Unreadable(zones, item, now)
    ensures var (w1, v) := DialOne(zones, w, item, now, answer);
            var legal := LegalTime(zones, item.schedule, item.contact.timezone, now);
            var room := !AtCapacity(w, item);
            && item.id in w1.contacts && Becomes(w1, item, legal, room, now, answer, w.nextCall)
            && (v.Dispatched? <==> legal && room && answer == Connects)
            && (v.Deferred? <==> !(legal && room)) && !v.Crashed?
            && w1.planLimits == w.planLimits
            && (if legal && room && (answer == Connects || answer == ProvisionRaises)
                then w1.calls == w.calls[w.nextCall := CallFor(item)] && w1.nextCall == w.nextCall + 1
                else w1.calls == w.calls && w1.nextCall == w.nextCall)
  {
    var d := Decide(zones, w, item, now, answer);
    Permitted(zones, item, now);
    CarriedBecomes(w, item, now, d);
    CarriedCall(w, item, now, d);
  }

  // ------------------------------------------------------------------------------- the loop

  lemma Snoc(claims: seq<Claim>, item: Claim, t: Id, c: Id)
    ensures OfTenant(claims + [item], t) == OfTenant(claims, t) + if item.contact.tenant == t then 1 else 0
    ensures OfCampaign(claims + [item], t, c)
            == OfCampaign(claims, t, c) + if item.contact.tenant == t && item.contact.campaign == c then 1 else 0
  {
    assert (claims + [item])[..|claims|] == claims;
  }

  lemma LoadedMore(w: World, w1: World, w2: World, callers: seq<Claim>, item: Claim)
    requires Loaded(w, w1, callers) && CallsNumbered(w1) && w2.planLimits == w1.planLimits
    requires w2.calls == w1.calls[w1.nextCall := CallFor(item)]
    ensures Loaded(w, w2, callers + [item])
  {
    var v := WithCall(w1, CallFor(item));
    SameCalls(v, w2);
    forall t: Id ensures |ActiveCalls(w2, t)| == |ActiveCalls(w, t)| + OfTenant(callers + [item], t) {
      Snoc(callers, item, t, 0);
      OneMoreForTenant(w1, CallFor(item), t);
      assert ActiveCalls(w2, t) == ActiveCalls(v, t);
    }
    forall t: Id, c: Id
      ensures |CampaignCalls(w2, t, c)| == |CampaignCalls(w, t, c)| + OfCampaign(callers + [item], t, c)
    {
      Snoc(callers, item, t, c);
      OneMoreForCampaign(w1, CallFor(item), t, c);
      assert CampaignCalls(w2, t, c) == CampaignCalls(v, t, c);
    }
  }

  lemma CalledMore(w: World, w1: World, w2: World, callers: seq<Claim>, item: Claim)
    requires Called(w, w1, callers) && CallsNumbered(w1)
    requires w2.calls == w1.calls[w1.nextCall := CallFor(item)] && w2.nextCall == w1.nextCall + 1
    ensures Called(w, w2, callers + [item])
  {
    forall n | 0 <= n < |callers + [item]| ensures HasCall(w2, w.nextCall + n, (callers + [item])[n]) {
      if n < |callers| { assert HasCall(w1, w.nextCall + n, callers[n]); }
    }
  }

  /** Claims before `k` have become what they become, and the others are as claimed. */
  ghost predicate Settled(zones: Zones, w: World, w1: World, claims: seq<Claim>, k: nat, now: Instant,
                          answers: nat -> Answer)
    requires k <= |claims|
  {
    && (forall j :: 0 <= j < |claims| ==> claims[j].id in w1.contacts)
    && (forall j :: 0 <= j < k ==> BecomesAt(zones, w, w1, claims, j, now, answers))
    && (forall j :: k <= j < |claims| ==> w1.contacts[claims[j].id] == claims[j].contact)
  }

  ghost predicate BecomesAt(zones: Zones, w: World, w1: World, claims: seq<Claim>, j: nat, now: Instant,
                            answers: nat -> Answer)
    requires j < |claims| && claims[j].id in w1.contacts
  {
    var callers := Callers(zones, w, claims, j, now, answers);
    Becomes(w1, claims[j], LegalTime(zones, claims[j].schedule, claims[j].contact.timezone, now),
            HasRoom(w, callers, claims[j]), now, answers(j), w.nextCall + |callers|)
  }

  /** The claims before `k` that are dialed, and those that are put off untouched by the outside. */
  ghost function DialedOf(zones: Zones, w: World, claims: seq<Claim>, k: nat, now: Instant, answers: nat -> Answer):
      set<nat>
    requires k <= |claims|
  {
    set j: nat | j < k && Served(zones, w, claims, j, now, answers) && answers(j) == Connects
  }

  ghost function DeferredOf(zones: Zones, w: World, claims: seq<Claim>, k: nat, now: Instant, answers: nat -> Answer):
      set<nat>
    requires k <= |claims|
  {
    set j: nat | j < k && !Served(zones, w, claims, j, now, answers)
  }

  ghost predicate Tallied(zones: Zones, w: World, claims: seq<Claim>, k: nat, now: Instant, answers: nat -> Answer,
                          t: Totals)
    requires k <= |claims|
  {
    && t.dispatched == |DialedOf(zones, w, claims, k, now, answers)|
    && t.deferred == |DeferredOf(zones, w, claims, k, now, answers)|
    && t.dispatched + t.deferred + t.failed == k
  }

  lemma TalliedMore(zones: Zones, w: World, claims: seq<Claim>, k: nat, now: Instant, answers: nat -> Answer,
                    t: Totals, v: Verdict)
    requires k < |claims| && Tallied(zones, w, claims, k, now, answers, t) && !v.Crashed?
    requires v.Dispatched? <==> Served(zones, w, claims, k, now, answers) && answers(k) == Connects
    requires v.Deferred? <==> !Served(zones, w, claims, k, now, answers)
    ensures Tallied(zones, w, claims, k + 1, now, answers, Counted(t, v))
  {
    DialedMore(zones, w, claims, k, now, answers);
    DeferredMore(zones, w, claims, k, now, answers);
  }

  lemma DialedMore(zones: Zones, w: World, claims: seq<Claim>, k: nat, now: Instant, answers: nat -> Answer)
    requires k < |claims|
    ensures |DialedOf(zones, w, claims, k + 1, now, answers)|
            == |DialedOf(zones, w, claims, k, now, answers)|
               + if Served(zones, w, claims, k, now, answers) && answers(k) == Connects then 1 else 0
  {
    var now0, later := DialedOf(zones, w, claims, k, now, answers), DialedOf(zones, w, claims, k + 1, now, answers);
    assert forall j :: j in now0 <==> j in later && j != k;
    assert later == now0 + if k in later then {k} else {};
  }

  lemma DeferredMore(zones: Zones, w: World, claims: seq<Claim>, k: nat, now: Instant, answers: nat -> Answer)
    requires k < |claims|
    ensures |DeferredOf(zones, w, claims, k + 1, now, answers)|
            == |DeferredOf(zones, w, claims, k, now, answers)|
               + if Served(zones, w, claims, k, now, answers) then 0 else 1
  {
    var now0, later := DeferredOf(zones, w, claims, k, now, answers), DeferredOf(zones, w, claims, k + 1, now, answers);
    assert forall j :: j in now0 <==> j in later && j != k;
    assert later == now0 + if k in later then {k} else {};
  }

  lemma BecomesStays(zones: Zones, w: World, w1: World, w2: World, claims: seq<Claim>, j: nat, now: Instant,
                     answers: nat -> Answer)
    requires j < |claims| && claims[j].id in w1.contacts && BecomesAt(zones, w, w1, claims, j, now, answers)
    requires claims[j].id in w2.contacts && w2.contacts[claims[j].id] == w1.contacts[claims[j].id]
    requires forall id :: id in w1.calls ==> id in w2.calls && w2.calls[id] == w1.calls[id]
    ensures BecomesAt(zones, w, w2, claims, j, now, answers)
  {
  }

  ghost predicate Fated(zones: Zones, w: World, w1: World, claims: seq<Claim>, k: nat, now: Instant,
                        answers: nat -> Answer, t: Totals)
  {
    && k <= |claims| && CallsNumbered(w1)
    && Settled(zones, w, w1, claims, k, now, answers)
    && Called(w, w1, Callers(zones, w, claims, k, now, answers))
    && Loaded(w, w1, Callers(zones, w, claims, k, now, answers))
    && Tallied(zones, w, claims, k, now, answers, t)
  }

  /** One turn of the loop, seen from the state before the tick. */
  lemma Turn(zones: Zones, w: World, w1: World, claims: seq<Claim>, k: nat, now: Instant, answers: nat -> Answer)
    requires k < |claims| && !Unreadable(zones, claims[k], now)
    requires claims[k].id in w1.contacts && w1.contacts[claims[k].id] == claims[k].contact
    requires Called(w, w1, Callers(zones, w, claims, k, now, answers))
    requires Loaded(w, w1, Callers(zones, w, claims, k, now, answers))
    ensures var (w2, v) := DialOne(zones, w1, claims[k], now, answers(k));
            var served := Served(zones, w, claims, k, now, answers);
            && claims[k].id in w2.contacts && BecomesAt(zones, w, w2, claims, k, now, answers)
            && (v.Dispatched? <==> served && answers(k) == Connects) && (v.Deferred? <==> !served) && !v.Crashed?
            && w2.planLimits == w1.planLimits
            && (if served && CreatesCall(answers(k))
                then w2.calls == w1.calls[w1.nextCall := CallFor(claims[k])] && w2.nextCall == w1.nextCall + 1
                else w2.calls == w1.calls && w2.nextCall == w1.nextCall)
  {
    DialOneBecomes(zones, w1, claims[k], now, answers(k));
    Permitted(zones, claims[k], now);
    if claims[k].schedule.maxConcurrency.Parsed? {
      RoomExactly(w, w1, Callers(zones, w, claims, k, now, answers), claims[k]);
    }
  }

  lemma TurnCalls(w: World, w1: World, w2: World, callers: seq<Claim>, item: Claim, creates: bool)
    requires Called(w, w1, callers) && Loaded(w, w1, callers) && CallsNumbered(w1) && w2.planLimits == w1.planLimits
    requires if creates then w2.calls == w1.calls[w1.nextCall := CallFor(item)] && w2.nextCall == w1.nextCall + 1
             else w2.calls == w1.calls && w2.nextCall == w1.nextCall
    ensures var callers2 := if creates then callers + [item] else callers;
            Called(w, w2, callers2) && Loaded(w, w2, callers2)
  {
    if creates {
      CalledMore(w, w1, w2, callers, item);
      LoadedMore(w, w1, w2, callers, item);
    } else {
      SameCalls(w1, w2);
    }
  }

  lemma FatedStep(zones: Zones, w: World, w1: World, claims: seq<Claim>, k: nat, now: Instant,
                  answers: nat -> Answer, t: Totals)
    requires Fated(zones, w, w1, claims, k, now, answers, t) && k < |claims| && DistinctClaims(claims)
    requires claims[k].contact.status == Calling && !Unreadable(zones, claims[k], now)
    ensures var (w2, v) := DialOne(zones, w1, claims[k], now, answers(k));
            !v.Crashed? && Fated(zones, w, w2, claims, k + 1, now, answers, Counted(t, v))
  {
    var (w2, v) := DialOne(zones, w1, claims[k], now, answers(k));
    Turn(zones, w, w1, claims, k, now, answers);
    DialOneProcesses(zones, w1, claims[k], now, answers(k));
    TurnCalls(w, w1, w2, Callers(zones, w, claims, k, now, answers), claims[k],
              Served(zones, w, claims, k, now, answers) && CreatesCall(answers(k)));
    TalliedMore(zones, w, claims, k, now, answers, t, v);
    SettledMore(zones, w, w1, w2, claims, k, now, answers);
  }

  lemma SettledMore(zones: Zones, w: World, w1: World, w2: World, claims: seq<Claim>, k: nat, now: Instant,
                    answers: nat -> Answer)
    requires k < |claims| && DistinctClaims(claims) && Settled(zones, w, w1, claims, k, now, answers)
    requires ContactsKept(w1, w2, claims[k].id) && Grows(w1, w2)
    requires claims[k].id in w2.contacts && BecomesAt(zones, w, w2, claims, k, now, answers)
    ensures Settled(zones, w, w2, claims, k + 1, now, answers)
  {
    forall j | 0 <= j < k + 1 ensures BecomesAt(zones, w, w2, claims, j, now, answers) {
      if j < k {
        assert claims[j].id != claims[k].id;
        BecomesStays(zones, w, w1, w2, claims, j, now, answers);
      }
    }
    forall j | k + 1 <= j < |claims| ensures w2.contacts[claims[j].id] == claims[j].contact {
      assert claims[j].id != claims[k].id;
    }
  }

  lemma {:induction false} FatedEnd(zones: Zones, w: World, w1: World, claims: seq<Claim>, k: nat, now: Instant,
                                    answers: nat -> Answer, t: Totals)
    requires Fated(zones, w, w1, claims, k, now, answers, t) && DistinctClaims(claims)
    requires forall j :: 0 <= j < |claims| ==> claims[j].contact.status == Calling
    ensures var (w2, t2, done) := DialFrom(zones, w1, claims, k, now, answers, t);
            Fated(zones, w, w2, claims, done, now, answers, t2)
    decreases |claims| - k
  {
    if k < |claims| {
      if Unreadable(zones, claims[k], now) {
        DialOneProcesses(zones, w1, claims[k], now, answers(k));
      } else {
        var (w2, v) := DialOne(zones, w1, claims[k], now, answers(k));
        FatedStep(zones, w, w1, claims, k, now, answers, t);
        FatedEnd(zones, w, w2, claims, k + 1, now, answers, Counted(t, v));
      }
    }
  }

  // ------------------------------------------------------------------------------ the whole tick

  /** What becomes of every claim that a tick reaches, by cases; the calls are the old ones and
      one queued call for each claim that was served and connected or failed to be provisioned;
      the totals count the claims that were dialed, that were put off before the outside was
      asked, and the rest. */
  lemma TickOutcomes(zones: Zones, w: World, now: Instant, claimNow: Instant, answers: nat -> Answer)
    requires Listed(w) && DistinctOrder(w) && CallsNumbered(w)
    ensures var tick := Tick(zones, w, now, claimNow, answers);
            && tick.done <= |tick.claims|
            && (forall j :: 0 <= j < |tick.claims| ==>
                  && ClaimedFrom(w, tick.claims[j], claimNow) && tick.claims[j].id in tick.world.contacts
                  && tick.claims[j].contact.attempts == w.contacts[tick.claims[j].id].attempts + 1)
            && (forall j :: 0 <= j < tick.done ==> BecomesAt(zones, w, tick.world, tick.claims, j, now, answers))
            && Called(w, tick.world, Callers(zones, w, tick.claims, tick.done, now, answers))
            && Tallied(zones, w, tick.claims, tick.done, now, answers, tick.totals)
  {
    var (w1, claims) := ClaimFrom(w, 0, claimNow, CLAIM_LIMIT, []);
    ClaimsAttempt(w, claimNow);
    FatedStart(zones, w, w1, claims, now, answers);
    FatedEnd(zones, w, w1, claims, 0, now, answers, Totals(0, 0, 0));
  }

  lemma ClaimsAttempt(w: World, claimNow: Instant)
    requires Listed(w) && DistinctOrder(w)
    ensures var (w1, claims) := ClaimFrom(w, 0, claimNow, CLAIM_LIMIT, []);
            && w1 == w.(contacts := w1.contacts) && w1.contacts.Keys == w.contacts.Keys && DistinctClaims(claims)
            && (forall j :: 0 <= j < |claims| ==>
                  && ClaimedFrom(w, claims[j], claimNow) && claims[j].contact.status == Calling
                  && claims[j].contact.attempts == w.contacts[claims[j].id].attempts + 1
                  && w1.contacts[claims[j].id] == claims[j].contact)
  {
    ClaimFromClaims(w, w, 0, claimNow, CLAIM_LIMIT, []);
    var claims := ClaimFrom(w, 0, claimNow, CLAIM_LIMIT, []).1;
    forall j | 0 <= j < |claims|
      ensures claims[j].contact.status == Calling
      ensures claims[j].contact.attempts == w.contacts[claims[j].id].attempts + 1
    {
      assert ClaimedFrom(w, claims[j], claimNow);
    }
  }

  lemma FatedStart(zones: Zones, w: World, w1: World, claims: seq<Claim>, now: Instant, answers: nat -> Answer)
    requires CallsNumbered(w) && w1 == w.(contacts := w1.contacts)
    requires forall j :: 0 <= j < |claims| ==>
               claims[j].id in w1.contacts && w1.contacts[claims[j].id] == claims[j].contact
    ensures Fated(zones, w, w1, claims, 0, now, answers, Totals(0, 0, 0))
  {
    SameCalls(w, w1);
  }
}
