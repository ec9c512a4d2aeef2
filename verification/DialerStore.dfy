/**
 * The dialer as it runs: the store's records are updated in place, contact by contact. Each
 * method does to the store what the corresponding function of Dialer does to a `World`.
 */
module DialerStore {
  import opened Wrappers
  import opened Campaigns
  import opened Dialer

  lemma CountNext(s: set<Id>, seen: set<Id>, id: Id)
    requires id !in seen
    ensures |s * (seen + {id})| == |s * seen| + if id in s then 1 else 0
  {
    if id in s {
      assert s * (seen + {id}) == s * seen + {id};
    } else {
      assert s * (seen + {id}) == s * seen;
    }
  }

  lemma SeenNext(seen: set<Id>, ids: set<Id>, id: Id, all: set<Id>)
    requires seen + ids == all && seen !! ids && id in ids
    ensures seen + {id} + (ids - {id}) == all && seen + {id} !! ids - {id}
  {
  }

  method CountCalls(ghost w: World, calls: map<Id, Call>, tenant: Id, campaign: Id)
    returns (active: nat, ofCampaign: nat)
    requires calls == w.calls
    ensures active == |ActiveCalls(w, tenant)| && ofCampaign == |CampaignCalls(w, tenant, campaign)|
  {
    var ids := calls.Keys;
    ghost var seen: set<Id> := {};
    ghost var all, here := ActiveCalls(w, tenant), CampaignCalls(w, tenant, campaign);
    active, ofCampaign := 0, 0;
    while ids != {}
      invariant seen + ids == calls.Keys && seen !! ids
      invariant active == |all * seen| && ofCampaign == |here * seen|
      decreases ids
    {
      var id :| id in ids;
      var call := calls[id];
      CountNext(all, seen, id);
      CountNext(here, seen, id);
      if call.tenant == tenant && IsActive(call.status) {
        active := active + 1;
        if call.campaign == Some(campaign) {
          ofCampaign := ofCampaign + 1;
        }
      }
      SeenNext(seen, ids, id, calls.Keys);
      seen, ids := seen + {id}, ids - {id};
    }
    assert all * seen == all && here * seen == here;
  }

  /** One turn of the tick's loop. */
  lemma DialFromStep(zones: Zones, w: World, claimed: seq<Claim>, k: nat, now: Instant, answers: nat -> Answer,
                     t: Totals)
    requires k < |claimed|
    ensures var (w1, v) := DialOne(zones, w, claimed[k], now, answers(k));
            DialFrom(zones, w, claimed, k, now, answers, t)
            == if v.Crashed? then (w1, t, k) else DialFrom(zones, w1, claimed, k + 1, now, answers, Counted(t, v))
  {
  }

  class MemoryRepository {
    var order: seq<Id>
    var contacts: map<Id, Contact>
    var campaigns: map<Id, Campaign>
    var calls: map<Id, Call>
    var doNotCall: set<(Id, string)>
    var planLimits: map<Id, int>
    var nextCall: Id
    ghost var dispatches: seq<Dispatch>

    ghost function State(): World
      reads this
    {
      World(order, contacts, campaigns, calls, doNotCall, planLimits, nextCall, dispatches)
    }

    ghost predicate Valid()
      reads this
    {
      Listed(State())
    }

    constructor ()
      ensures Valid() && State() == World([], map[], map[], map[], {}, map[], 0, [])
    {
      order, contacts, campaigns, calls := [], map[], map[], map[];
      doNotCall, planLimits, nextCall, dispatches := {}, map[], 0, [];
    }

    method ClaimCampaignContacts(now: Instant, limit: int) returns (claimed: seq<Claim>)
      requires Valid()
      modifies this`contacts
      ensures Valid() && (State(), claimed) == ClaimFrom(old(State()), 0, now, limit, [])
    {
      ghost var goal := ClaimFrom(State(), 0, now, limit, []);
      claimed := [];
      var i := 0;
      while i < |order|
        invariant i <= |order| && Valid()
        invariant ClaimFrom(State(), i, now, limit, claimed) == goal
      {
        var id := order[i];
        var contact := contacts[id];
        if contact.campaign !in campaigns || !campaigns[contact.campaign].status.Running? {
          i := i + 1;
          continue;
        }
        if !contact.status.Pending? && !contact.status.Retry? {
          i := i + 1;
          continue;
        }
        if contact.nextAttempt.Some? && contact.nextAttempt.value > now {
          i := i + 1;
          continue;
        }
        if (contact.tenant, contact.phone) in doNotCall {
          i := i + 1;
          continue;
        }
        var campaign := campaigns[contact.campaign];
        contact := contact.(status := Calling, attempts := contact.attempts + 1);
        contacts := contacts[id := contact];
        claimed := claimed + [Claim(id, contact, campaign.agent, campaign.schedule)];
        if |claimed| >= limit {
          return;
        }
        i := i + 1;
      }
    }

    method UpdateCampaignContactInternal(id: Id, status: ContactStatus, next: Option<Instant>)
      modifies this`contacts
      ensures State() == WithContact(old(State()), id, status, next)
    {
      if id in contacts {
        contacts := contacts[id := contacts[id].(status := status, nextAttempt := next)];
      }
    }

    method CreateCall(call: Call) returns (id: Id)
      modifies this`calls, this`nextCall
      ensures id == old(nextCall) && State() == WithCall(old(State()), call)
    {
      id := nextCall;
      calls := calls[id := call];
      nextCall := nextCall + 1;
    }

    /** `list_calls` and the two counts the tick takes from it. */
    method CountActive(tenant: Id, campaign: Id) returns (active: nat, ofCampaign: nat)
      ensures active == |ActiveCalls(State(), tenant)|
      ensures ofCampaign == |CampaignCalls(State(), tenant, campaign)|
    {
      active, ofCampaign := CountCalls(State(), calls, tenant, campaign);
    }

    /** What the tick decides for a claim. */
    method Judge(zones: Zones, item: Claim, now: Instant, answer: Answer) returns (d: Decision)
      ensures d == Decide(zones, State(), item, now, answer)
    {
      var permission := DialingAllowed(zones, item.schedule, now, item.contact.timezone);
      if permission == Raises {
        return Crash;
      }
      if permission == Forbidden {
        return Postpone(300 * SECOND, Deferred);
      }
      var active, ofCampaign := CountActive(item.contact.tenant, item.contact.campaign);
      var tenant := item.contact.tenant;
      var planLimit := if tenant in planLimits then planLimits[tenant] else DEFAULT_PLAN_LIMIT;
      if item.schedule.maxConcurrency.Malformed? {
        return Crash;
      }
      var configured := item.schedule.maxConcurrency.value;
      var campaignLimit := Min(if configured.Some? then configured.value else planLimit, planLimit);
      if active >= planLimit || ofCampaign >= campaignLimit {
        return Postpone(30 * SECOND, Deferred);
      }
      match answer
      case NotReady => return GiveUp;
      case UserRaises => return Postpone(300 * SECOND, Rejected);
      case CallRaises => return Postpone(300 * SECOND, Rejected);
      case ProvisionRaises => return LoseCall;
      case Connects => return Connect;
    }

    /** The body of the tick's loop. */
    method DialContact(zones: Zones, item: Claim, now: Instant, answer: Answer) returns (v: Verdict)
      modifies this`contacts, this`calls, this`nextCall, this`dispatches
      ensures (State(), v) == DialOne(zones, old(State()), item, now, answer)
    {
      var d := Judge(zones, item, now, answer);
      match d
      case Crash =>
        return Crashed;
      case Postpone(delay, verdict) =>
        UpdateCampaignContactInternal(item.id, Retry, Some(now + delay));
        return verdict;
      case GiveUp =>
        UpdateCampaignContactInternal(item.id, Ended(Failed), None);
        return Rejected;
      case LoseCall =>
        var _ := CreateCall(Call(item.contact.tenant, Some(item.contact.campaign), Queued));
        UpdateCampaignContactInternal(item.id, Retry, Some(now + 300 * SECOND));
        return Rejected;
      case Connect =>
        var call := CreateCall(Call(item.contact.tenant, Some(item.contact.campaign), Queued));
        if item.id in contacts {
          var dialed := contacts[item.id].(status := Calling, lastCall := Some(call), nextAttempt := None);
          contacts := contacts[item.id := dialed];
          dispatches := dispatches + [Dispatch(item.id, call, now)];
        }
        return Dispatched;
    }

    /** `raised`: a schedule could not be read; the counts are then not reported. */
    method CampaignRunnerTick(zones: Zones, now: Instant, claimNow: Instant, answers: nat -> Answer)
      returns (raised: bool, claims: nat, totals: Totals)
      requires Valid()
      modifies this`contacts, this`calls, this`nextCall, this`dispatches
      ensures var tick := Tick(zones, old(State()), now, claimNow, answers);
              State() == tick.world && claims == |tick.claims| && totals == tick.totals
                && (raised <==> tick.done < claims)
    {
      var claimed := ClaimCampaignContacts(claimNow, CLAIM_LIMIT);
      var done;
      totals, done := DialAll(zones, claimed, now, answers);
      claims, raised := |claimed|, done < |claimed|;
    }

    /** The tick's loop, which a schedule that cannot be read breaks off. */
    method DialAll(zones: Zones, claimed: seq<Claim>, now: Instant, answers: nat -> Answer)
      returns (totals: Totals, done: nat)
      modifies this`contacts, this`calls, this`nextCall, this`dispatches
      ensures (State(), totals, done) == DialFrom(zones, old(State()), claimed, 0, now, answers, Totals(0, 0, 0))
      ensures done <= |claimed|
    {
      totals, done := Totals(0, 0, 0), 0;
      while done < |claimed|
        invariant done <= |claimed|
        invariant DialFrom(zones, State(), claimed, done, now, answers, totals)
                  == DialFrom(zones, old(State()), claimed, 0, now, answers, Totals(0, 0, 0))
      {
        DialFromStep(zones, State(), claimed, done, now, answers, totals);
        var v := DialContact(zones, claimed[done], now, answers(done));
        if v.Crashed? {
          return;
        }
        totals, done := Counted(totals, v), done + 1;
      }
    }

    /** `next(...)` over the contacts: the first whose last call is this one. */
    method FindContact(call: Id) returns (found: Option<Id>)
      requires Valid()
      ensures found == ContactOf(State(), call, 0)
    {
      for i := 0 to |order|
        invariant ContactOf(State(), call, 0) == ContactOf(State(), call, i)
      {
        if contacts[order[i]].lastCall == Some(call) {
          return Some(order[i]);
        }
      }
      return None;
    }

    /** The sums over a campaign's contacts. */
    method CampaignTotals(campaign: Id) returns (s: Stats)
      requires Valid()
      ensures s == FreshStats(State(), campaign)
    {
      var total, done, failed, remaining := 0, 0, 0, 0;
      for i := 0 to |order|
        invariant total == CountIn(State(), campaign, i, (s: ContactStatus) => true)
        invariant done == CountIn(State(), campaign, i, (s: ContactStatus) => s.Done?)
        invariant failed == CountIn(State(), campaign, i, (s: ContactStatus) => !Open(s) && !s.Done?)
        invariant remaining == CountIn(State(), campaign, i, (s: ContactStatus) => Open(s))
      {
        var c := contacts[order[i]];
        if c.campaign == campaign {
          total := total + 1;
          if Open(c.status) {
            remaining := remaining + 1;
          } else if c.status.Done? {
            done := done + 1;
          } else {
            failed := failed + 1;
          }
        }
      }
      s := Stats(total, done, failed, remaining);
    }

    method UpdateInternalCall(call: Id, status: Option<CallStatus>, now: Instant)
      requires Valid()
      modifies this`contacts, this`calls, this`campaigns
      ensures State() == Dialer.UpdateInternalCall(old(State()), call, status, now)
    {
      if call !in calls {
        return;
      }
      if status.Some? {
        calls := calls[call := calls[call].(status := status.value)];
      } else {
        assert calls == calls[call := calls[call]];
      }
      var updated := calls[call];
      if updated.campaign.Some? && updated.status.Finished? {
        var found := FindContact(call);
        if found.Some? && found.value in contacts && contacts[found.value].campaign in campaigns {
          var contact := contacts[found.value];
          var campaign := campaigns[contact.campaign];
          var next := RetryAt(updated.status.how, contact.attempts, campaign.schedule.retry, now);
          UpdateCampaignContactInternal(
            found.value,
            if next.Some? then Retry else if updated.status.how == Answered then Done else Ended(updated.status.how),
            next);
          var stats := CampaignTotals(contact.campaign);
          campaign := campaign.(stats := Some(stats));
          if stats.remaining == 0 {
            campaign := campaign.(status := Completed);
          }
          campaigns := campaigns[contact.campaign := campaign];
        }
      }
    }
  }
}
