/**
 * Whole runs of the dialer: any sequence of ticks, call updates, campaign edits and new
 * contacts, one at a time.
 */
module DialerRuns {
  import opened Wrappers
  import opened Sets
  import opened Campaigns
  import opened Dialer
  import opened DialerSafety
  import opened DialerTicks

  datatype Event =
    | TickAt(now: Instant, claimNow: Instant, answers: nat -> Answer)
    | EndCall(call: Id, status: Option<CallStatus>, at: Instant)
    | PatchCall(call: Id, to: CallStatus)
    | OtherCall(tenant: Id, state: CallStatus)
    | Transition(campaign: Id, action: Action)
    | Edit(campaign: Id, schedule: Schedule)
    | AddCampaign(campaign: Id, owner: Id, agent: Id, schedule: Schedule)
    | AddContact(contact: Id, campaign: Id, phone: string, timezone: Option<string>)
    | Block(tenant: Id, phone: string)
    | Unblock(tenant: Id, phone: string)

  /** Contacts are listed once each and calls are numbered below the next number. */
  ghost predicate WellFormed(w: World) {
    Listed(w) && DistinctOrder(w) && CallsNumbered(w)
  }

  /** One operation of the service on the dialer's state. A call update that only patches the
      call is `update_call`; one that also settles its contact is `update_internal_call`. */
  function Step(zones: Zones, w: World, e: Event): World
    requires WellFormed(w)
  {
    match e
    case TickAt(now, claimNow, answers) => Tick(zones, w, now, claimNow, answers).world
    case EndCall(call, status, at) => UpdateInternalCall(w, call, status, at)
    case PatchCall(call, to) =>
      if call in w.calls then w.(calls := w.calls[call := w.calls[call].(status := to)]) else w
    case OtherCall(tenant, state) => WithCall(w, Call(tenant, None, state))
    case Transition(campaign, action) =>
      if campaign !in w.campaigns then w
      else if action == Start && (forall id :: id in w.contacts ==> w.contacts[id].campaign != campaign) then w
      else
        var target := TransitionStatus(w.campaigns[campaign].status, action);
        if target.None? then w
        else w.(campaigns := w.campaigns[campaign := w.campaigns[campaign].(status := target.value)])
    case Edit(campaign, schedule) =>
      if campaign !in w.campaigns || !(w.campaigns[campaign].status.Draft? || w.campaigns[campaign].status.Paused?)
      then w
      else w.(campaigns := w.campaigns[campaign := w.campaigns[campaign].(schedule := schedule)])
    case AddCampaign(campaign, owner, agent, schedule) =>
      if campaign in w.campaigns then w
      else w.(campaigns := w.campaigns[campaign := Campaign(owner, agent, Draft, schedule, None)])
    case AddContact(contact, campaign, phone, timezone) =>
      if campaign !in w.campaigns || contact in w.contacts || (w.campaigns[campaign].tenant, phone) in w.doNotCall
      then w
      else
        var c := Contact(w.campaigns[campaign].tenant, campaign, phone, timezone, Pending, 0, None, None);
        w.(order := w.order + [contact], contacts := w.contacts[contact := c])
    case Block(tenant, phone) => w.(doNotCall := w.doNotCall + {(tenant, phone)})
    case Unblock(tenant, phone) => w.(doNotCall := w.doNotCall - {(tenant, phone)})
  }

  const EMPTY := World([], map[], map[], map[], {}, map[], 0, [])

  // ------------------------------------------------------------------------- bounded dialing

  /** Every retry policy the event brings in allows at most `bound` attempts. */
  ghost predicate PolicyWithin(e: Event, bound: int) {
    (e.Edit? ==> e.schedule.retry.maxAttempts <= bound) && (e.AddCampaign? ==> e.schedule.retry.maxAttempts <= bound)
  }

  lemma {:induction false} NoDials(log: seq<Dispatch>, contact: Id)
    requires forall k :: 0 <= k < |log| ==> log[k].contact != contact
    ensures Dials(log, contact) == 0
  {
    if log != [] { NoDials(log[..|log| - 1], contact); }
  }

  lemma CampaignSetBounded(w: World, campaign: Id, c: Campaign, bound: int)
    requires Bounded(w, bound) && c.schedule.retry.maxAttempts <= bound
    ensures Bounded(w.(campaigns := w.campaigns[campaign := c]), bound)
  {
  }

  lemma ContactAddedBounded(w: World, id: Id, c: Contact, bound: int)
    requires Bounded(w, bound) && id !in w.contacts && c.status == Pending
    ensures Bounded(w.(order := w.order + [id], contacts := w.contacts[id := c]), bound)
  {
    NoDials(w.dispatches, id);
    var w1 := w.(order := w.order + [id], contacts := w.contacts[id := c]);
    forall i, j | 0 <= i < j < |w1.order| ensures w1.order[i] != w1.order[j] {
      assert i < |w.order| && w1.order[i] == w.order[i] && w.order[i] in w.contacts;
    }
  }

  lemma StepBounded(zones: Zones, w: World, e: Event, bound: int)
    requires WellFormed(w) && Bounded(w, bound) && PolicyWithin(e, bound)
    ensures Bounded(Step(zones, w, e), bound)
  {
    match e
    case TickAt(now, claimNow, answers) => TickBounded(zones, w, now, claimNow, answers, bound);
    case EndCall(call, status, at) => UpdateBounded(w, call, status, at, bound);
    case AddContact(contact, campaign, phone, timezone) =>
      if campaign in w.campaigns && contact !in w.contacts {
        var added := Contact(w.campaigns[campaign].tenant, campaign, phone, timezone, Pending, 0, None, None);
        ContactAddedBounded(w, contact, added, bound);
      }
    case Edit(campaign, schedule) =>
      if campaign in w.campaigns {
        CampaignSetBounded(w, campaign, w.campaigns[campaign].(schedule := schedule), bound);
      }
    case Transition(campaign, action) =>
      if campaign in w.campaigns && TransitionStatus(w.campaigns[campaign].status, action).Some? {
        var status := TransitionStatus(w.campaigns[campaign].status, action).value;
        CampaignSetBounded(w, campaign, w.campaigns[campaign].(status := status), bound);
      }
    case AddCampaign(campaign, owner, agent, schedule) =>
      CampaignSetBounded(w, campaign, Campaign(owner, agent, Draft, schedule, None), bound);
    case _ =>
  }

  lemma DialOneKeeps(zones: Zones, w: World, item: Claim, now: Instant, answer: Answer)
    ensures var w' := DialOne(zones, w, item, now, answer).0;
            w'.order == w.order && w'.contacts.Keys == w.contacts.Keys && w'.campaigns == w.campaigns
  {
    CarriedKeeps(w, item, now, Decide(zones, w, item, now, answer));
  }

  lemma CarriedKeeps(w: World, item: Claim, now: Instant, d: Decision)
    ensures var w' := CarryOut(w, item, now, d).0;
            w'.order == w.order && w'.contacts.Keys == w.contacts.Keys && w'.campaigns == w.campaigns
  {
  }

  lemma {:induction false} DialFromKeeps(
    zones: Zones, w: World, claimed: seq<Claim>, k: nat, now: Instant, answers: nat -> Answer, t: Totals)
    requires k <= |claimed|
    ensures var w' := DialFrom(zones, w, claimed, k, now, answers, t).0;
            w'.order == w.order && w'.contacts.Keys == w.contacts.Keys && w'.campaigns == w.campaigns
    decreases |claimed| - k
  {
    if k < |claimed| {
      var (w1, v) := DialOne(zones, w, claimed[k], now, answers(k));
      DialOneKeeps(zones, w, claimed[k], now, answers(k));
      if !v.Crashed? { DialFromKeeps(zones, w1, claimed, k + 1, now, answers, Counted(t, v)); }
    }
  }

  lemma TickKeeps(zones: Zones, w: World, now: Instant, claimNow: Instant, answers: nat -> Answer)
    requires WellFormed(w)
    ensures var w' := Tick(zones, w, now, claimNow, answers).world; WellFormed(w') && w'.campaigns == w.campaigns
  {
    var (w1, claimed) := ClaimFrom(w, 0, claimNow, CLAIM_LIMIT, []);
    ClaimFromClaims(w, w, 0, claimNow, CLAIM_LIMIT, []);
    DialFromKeeps(zones, w1, claimed, 0, now, answers, Totals(0, 0, 0));
    TickCapacity(zones, w, now, claimNow, answers);
  }

  lemma SettleKeeps(w: World, call: Id, how: Outcome, now: Instant)
    requires Listed(w)
    ensures var w' := Settle(w, call, how, now);
            && w'.order == w.order && w'.contacts.Keys == w.contacts.Keys && w'.calls == w.calls
            && w'.nextCall == w.nextCall && w'.planLimits == w.planLimits && w'.campaigns.Keys == w.campaigns.Keys
            && forall c :: c in w.campaigns ==> w'.campaigns[c].schedule == w.campaigns[c].schedule
  {
  }

  lemma StepWellFormed(zones: Zones, w: World, e: Event)
    requires WellFormed(w)
    ensures WellFormed(Step(zones, w, e))
  {
    match e
    case TickAt(now, claimNow, answers) => TickKeeps(zones, w, now, claimNow, answers);
    case EndCall(call, status, at) =>
      if call in w.calls {
        var updated := if status.Some? then w.calls[call].(status := status.value) else w.calls[call];
        var w1 := w.(calls := w.calls[call := updated]);
        if updated.status.Finished? { SettleKeeps(w1, call, updated.status.how, at); }
      }
    case AddContact(contact, campaign, phone, timezone) =>
      if campaign in w.campaigns && contact !in w.contacts {
        ContactAddedWellFormed(w, contact,
          Contact(w.campaigns[campaign].tenant, campaign, phone, timezone, Pending, 0, None, None));
      }
    case _ =>
  }

  lemma ContactAddedWellFormed(w: World, id: Id, c: Contact)
    requires WellFormed(w) && id !in w.contacts
    ensures WellFormed(w.(order := w.order + [id], contacts := w.contacts[id := c]))
  {
    var order := w.order + [id];
    assert forall i :: 0 <= i < |w.order| ==> order[i] == w.order[i] && w.order[i] in w.contacts;
  }

  /** The state after a run. */
  function Run(zones: Zones, w: World, events: seq<Event>): World
    requires WellFormed(w)
    decreases |events|
  {
    if events == [] then w
    else
      StepWellFormed(zones, w, events[0]);
      Run(zones, Step(zones, w, events[0]), events[1..])
  }

  lemma {:induction false} RunBounded(zones: Zones, w: World, events: seq<Event>, bound: int)
    requires WellFormed(w) && Bounded(w, bound) && forall e :: e in events ==> PolicyWithin(e, bound)
    ensures Bounded(Run(zones, w, events), bound)
    decreases |events|
  {
    if events != [] {
      StepBounded(zones, w, events[0], bound);
      StepWellFormed(zones, w, events[0]);
      RunBounded(zones, Step(zones, w, events[0]), events[1..], bound);
    }
  }

  /** Bounded dialing: whatever happens and in whatever order, including repeated reports of the
      end of a call, a contact is dispatched at most max(1, `bound`) times when no retry policy
      ever allows more than `bound` attempts; and never more often than its attempts count. */
  lemma BoundedDialing(zones: Zones, events: seq<Event>, bound: int, contact: Id)
    requires forall e :: e in events ==> PolicyWithin(e, bound)
    ensures var w := Run(zones, EMPTY, events);
            contact in w.contacts ==>
              Dials(w.dispatches, contact) <= Max(1, bound)
                && Dials(w.dispatches, contact) <= w.contacts[contact].attempts
  {
    RunBounded(zones, EMPTY, events, bound);
    var w := Run(zones, EMPTY, events);
    assert contact in w.contacts ==> Budget(w.contacts[contact], Dials(w.dispatches, contact), bound);
  }

  // ----------------------------------------------------------------------------- concurrency

  /** Every tenant and every campaign is within its limit, and campaign calls name campaigns. */
  ghost predicate Within(w: World) {
    && (forall t: Id :: |ActiveCalls(w, t)| <= Max(0, PlanLimit(w, t)))
    && (forall t: Id, c: Id :: c in w.campaigns ==>
          |CampaignCalls(w, t, c)| <= Max(0, CampaignLimit(w, t, w.campaigns[c].schedule)))
    && CampaignsNamed(w)
  }

  ghost predicate CampaignsNamed(w: World) {
    forall id :: id in w.calls && w.calls[id].campaign.Some? ==> w.calls[id].campaign.value in w.campaigns
  }

  /** The event revives no finished call, starts no call beyond the plan outside the dialer, and
      does not edit a campaign's limit below the calls it has. */
  ghost predicate Calm(w: World, e: Event) {
    match e
    case EndCall(call, status, _) =>
      call in w.calls && status.Some? && IsActive(status.value) ==> IsActive(w.calls[call].status)
    case PatchCall(call, to) => call in w.calls && IsActive(to) ==> IsActive(w.calls[call].status)
    case OtherCall(tenant, state) => IsActive(state) ==> |ActiveCalls(w, tenant)| < PlanLimit(w, tenant)
    case Edit(campaign, schedule) =>
      forall t: Id :: |CampaignCalls(w, t, campaign)| <= Max(0, CampaignLimit(w, t, schedule))
    case _ => true
  }

  ghost predicate CalmRun(zones: Zones, w: World, events: seq<Event>)
    requires WellFormed(w)
    decreases |events|
  {
    events == [] ||
    (Calm(w, events[0])
     && (StepWellFormed(zones, w, events[0]); CalmRun(zones, Step(zones, w, events[0]), events[1..])))
  }

  /** Changing one call's status without reviving it adds no active call. */
  lemma CallPatched(w: World, call: Id, to: CallStatus, w1: World)
    requires Within(w) && call in w.calls && (IsActive(to) ==> IsActive(w.calls[call].status))
    requires w1 == w.(calls := w.calls[call := w.calls[call].(status := to)])
    ensures Within(w1)
  {
    forall t: Id ensures |ActiveCalls(w1, t)| <= |ActiveCalls(w, t)| {
      assert ActiveCalls(w1, t) <= ActiveCalls(w, t);
      SubsetSize(ActiveCalls(w1, t), ActiveCalls(w, t));
    }
    forall t: Id, c: Id ensures |CampaignCalls(w1, t, c)| <= |CampaignCalls(w, t, c)| {
      assert CampaignCalls(w1, t, c) <= CampaignCalls(w, t, c);
      SubsetSize(CampaignCalls(w1, t, c), CampaignCalls(w, t, c));
    }
  }

  lemma OtherCallWithin(w: World, tenant: Id, state: CallStatus)
    requires Within(w) && CallsNumbered(w) && (IsActive(state) ==> |ActiveCalls(w, tenant)| < PlanLimit(w, tenant))
    ensures Within(WithCall(w, Call(tenant, None, state)))
  {
    var call := Call(tenant, None, state);
    var w1 := WithCall(w, call);
    forall t: Id ensures |ActiveCalls(w1, t)| <= Max(0, PlanLimit(w1, t)) {
      if IsActive(state) {
        OneMoreForTenant(w, call, t);
        if t == tenant { OneMore(ActiveCalls(w, t), ActiveCalls(w1, t), w.nextCall); }
      } else {
        assert ActiveCalls(w1, t) == ActiveCalls(w, t);
      }
    }
    forall t: Id, c: Id ensures CampaignCalls(w1, t, c) == CampaignCalls(w, t, c) {
      SameForCampaign(w, call, t, c);
    }
  }

  lemma SameForCampaign(w: World, call: Call, t: Id, c: Id)
    requires CallsNumbered(w) && call.campaign.None?
    ensures CampaignCalls(WithCall(w, call), t, c) == CampaignCalls(w, t, c)
  {
  }

  /** A world with the same calls and limits and, for each campaign, the same schedule. */
  lemma SameWithin(w: World, w1: World)
    requires Within(w) && w1.calls == w.calls && w1.planLimits == w.planLimits && w.campaigns.Keys == w1.campaigns.Keys
    requires forall c :: c in w.campaigns ==> w1.campaigns[c].schedule == w.campaigns[c].schedule
    ensures Within(w1)
  {
    SameCalls(w, w1);
  }

  lemma {:induction false} DialFromCampaigns(
    zones: Zones, w: World, claimed: seq<Claim>, k: nat, now: Instant, answers: nat -> Answer, t: Totals)
    requires k <= |claimed| && CampaignsNamed(w) && Scheduled(w, claimed)
    ensures CampaignsNamed(DialFrom(zones, w, claimed, k, now, answers, t).0)
    decreases |claimed| - k
  {
    if k < |claimed| {
      var (w1, v) := DialOne(zones, w, claimed[k], now, answers(k));
      DialOneKeeps(zones, w, claimed[k], now, answers(k));
      if !v.Crashed? { DialFromCampaigns(zones, w1, claimed, k + 1, now, answers, Counted(t, v)); }
    }
  }

  lemma TickWithin(zones: Zones, w: World, now: Instant, claimNow: Instant, answers: nat -> Answer)
    requires WellFormed(w) && Within(w)
    ensures Within(Tick(zones, w, now, claimNow, answers).world)
  {
    TickCapacity(zones, w, now, claimNow, answers);
    var (w1, claimed) := ClaimFrom(w, 0, claimNow, CLAIM_LIMIT, []);
    ClaimsScheduled(w, claimNow);
    TickKeeps(zones, w, now, claimNow, answers);
    DialFromCampaigns(zones, w1, claimed, 0, now, answers, Totals(0, 0, 0));
  }

  lemma EndCallWithin(w: World, call: Id, status: Option<CallStatus>, at: Instant)
    requires WellFormed(w) && Within(w) && Calm(w, EndCall(call, status, at))
    ensures Within(UpdateInternalCall(w, call, status, at))
  {
    if call in w.calls {
      var to := if status.Some? then status.value else w.calls[call].status;
      var updated := if status.Some? then w.calls[call].(status := status.value) else w.calls[call];
      var w1 := w.(calls := w.calls[call := updated]);
      assert updated == w.calls[call].(status := to);
      CallPatched(w, call, to, w1);
      if updated.status.Finished? {
        SettleKeeps(w1, call, updated.status.how, at);
        SameWithin(w1, Settle(w1, call, updated.status.how, at));
      }
    }
  }

  lemma StepWithin(zones: Zones, w: World, e: Event)
    requires WellFormed(w) && Within(w) && Calm(w, e)
    ensures Within(Step(zones, w, e))
  {
    var w1 := Step(zones, w, e);
    match e
    case TickAt(now, claimNow, answers) => TickWithin(zones, w, now, claimNow, answers);
    case EndCall(call, status, at) => EndCallWithin(w, call, status, at);
    case PatchCall(call, to) => if call in w.calls { CallPatched(w, call, to, w1); }
    case OtherCall(tenant, state) => OtherCallWithin(w, tenant, state);
    case Edit(campaign, schedule) => SameCalls(w, w1);
    case AddCampaign(campaign, owner, agent, schedule) =>
      CampaignAddedWithin(w, campaign, Campaign(owner, agent, Draft, schedule, None));
    case _ => SameWithin(w, w1);
  }

  lemma CampaignAddedWithin(w: World, campaign: Id, c: Campaign)
    requires Within(w)
    ensures campaign !in w.campaigns ==> Within(w.(campaigns := w.campaigns[campaign := c]))
  {
    var w1 := w.(campaigns := w.campaigns[campaign := c]);
    SameCalls(w, w1);
    if campaign !in w.campaigns {
      forall t: Id ensures CampaignCalls(w1, t, campaign) == {} {
      }
    }
  }

  /** Concurrency safety: along a run that never revives a finished call, no tenant exceeds its
      plan and no campaign exceeds the smaller of its own limit and the plan, also when
      provisioning raises after a call row was created. */
  lemma {:induction false} RunWithin(zones: Zones, w: World, events: seq<Event>)
    requires WellFormed(w) && Within(w) && CalmRun(zones, w, events)
    ensures Within(Run(zones, w, events))
    decreases |events|
  {
    if events != [] {
      StepWithin(zones, w, events[0]);
      StepWellFormed(zones, w, events[0]);
      RunWithin(zones, Step(zones, w, events[0]), events[1..]);
    }
  }

  // -------------------------------------------------------------------------------- legality

  lemma {:induction false} RunSnoc(zones: Zones, w: World, events: seq<Event>, e: Event)
    requires WellFormed(w)
    ensures WellFormed(Run(zones, w, events))
    ensures Run(zones, w, events + [e]) == Step(zones, Run(zones, w, events), e)
    decreases |events|
  {
    StepWellFormed(zones, w, if events == [] then e else events[0]);
    if events == [] {
      assert [e][1..] == [] && events + [e] == [e];
    } else {
      assert (events + [e])[1..] == events[1..] + [e];
      RunSnoc(zones, Step(zones, w, events[0]), events[1..], e);
    }
  }

  lemma StepDispatches(zones: Zones, w: World, e: Event)
    requires WellFormed(w)
    ensures w.dispatches <= Step(zones, w, e).dispatches
    ensures !e.TickAt? ==> Step(zones, w, e).dispatches == w.dispatches
  {
    if e.TickAt? { TickRuns(zones, w, e.now, e.claimNow, e.answers); }
  }

  /** Every dispatch of a run was made by one of its ticks, and was legal in the state that tick
      started from. */
  lemma {:induction false} EveryDispatchLegal(zones: Zones, w: World, events: seq<Event>, n: nat) returns (j: nat)
    requires WellFormed(w) && |w.dispatches| <= n < |Run(zones, w, events).dispatches|
    ensures j < |events| && events[j].TickAt? && WellFormed(Run(zones, w, events[..j]))
    ensures Legal(zones, Run(zones, w, events[..j]), Run(zones, w, events).dispatches[n],
                  events[j].now, events[j].claimNow)
    decreases |events|
  {
    assert events != [];
    var m := |events| - 1;
    var front, e := events[..m], events[m];
    assert events == front + [e];
    RunSnoc(zones, w, front, e);
    var before := Run(zones, w, front);
    StepDispatches(zones, before, e);
    if n < |before.dispatches| {
      j := EveryDispatchLegal(zones, w, front, n);
      assert front[..j] == events[..j];
    } else {
      j := m;
      TickDispatchesLegally(zones, before, e.now, e.claimNow, e.answers, n);
    }
  }

  // ----------------------------------------------------------------------- campaign statistics

  lemma {:induction false} CountsSplit(w: World, campaign: Id, i: nat, a: ContactStatus -> bool,
                                       b: ContactStatus -> bool, c: ContactStatus -> bool)
    requires Listed(w) && i <= |w.order|
    requires forall s :: a(s) == (b(s) || c(s)) && !(b(s) && c(s))
    ensures CountIn(w, campaign, i, a) == CountIn(w, campaign, i, b) + CountIn(w, campaign, i, c)
  {
    if i > 0 { CountsSplit(w, campaign, i - 1, a, b, c); }
  }

  lemma {:induction false} CountZero(w: World, campaign: Id, i: nat, which: ContactStatus -> bool)
    requires Listed(w) && i <= |w.order|
    ensures CountIn(w, campaign, i, which) == 0 <==>
            forall k :: 0 <= k < i ==> var c := w.contacts[w.order[k]]; !(c.campaign == campaign && which(c.status))
  {
    if i > 0 { CountZero(w, campaign, i - 1, which); }
  }

  /** The totals written for a campaign partition its contacts, and nothing remains exactly when
      no contact of the campaign is pending, waiting for a retry or calling. */
  lemma StatsAddUp(w: World, campaign: Id)
    requires Listed(w)
    ensures var s := FreshStats(w, campaign); s.total == s.done + s.failed + s.remaining
    ensures FreshStats(w, campaign).remaining == 0 <==>
            forall k :: 0 <= k < |w.order| ==>
              w.contacts[w.order[k]].campaign == campaign ==> !Open(w.contacts[w.order[k]].status)
  {
    var all, done := (s: ContactStatus) => true, (s: ContactStatus) => s.Done?;
    var failed, open := (s: ContactStatus) => !Open(s) && !s.Done?, (s: ContactStatus) => Open(s);
    var closed := (s: ContactStatus) => !Open(s);
    CountsSplit(w, campaign, |w.order|, all, open, closed);
    CountsSplit(w, campaign, |w.order|, closed, done, failed);
    CountZero(w, campaign, |w.order|, open);
  }

  lemma {:induction false} CountSame(w: World, w1: World, campaign: Id, i: nat, which: ContactStatus -> bool)
    requires Listed(w) && Listed(w1) && w1.order == w.order && w1.contacts == w.contacts && i <= |w.order|
    ensures CountIn(w1, campaign, i, which) == CountIn(w, campaign, i, which)
  {
    if i > 0 { CountSame(w, w1, campaign, i - 1, which); }
  }

  lemma StatsSame(w: World, w1: World, campaign: Id)
    requires Listed(w) && Listed(w1) && w1.order == w.order && w1.contacts == w.contacts
    ensures FreshStats(w1, campaign) == FreshStats(w, campaign)
  {
    CountSame(w, w1, campaign, |w.order|, (s: ContactStatus) => true);
    CountSame(w, w1, campaign, |w.order|, (s: ContactStatus) => s.Done?);
    CountSame(w, w1, campaign, |w.order|, (s: ContactStatus) => !Open(s) && !s.Done?);
    CountSame(w, w1, campaign, |w.order|, (s: ContactStatus) => Open(s));
  }

  /** Settling a contact leaves its campaign with fresh totals. The campaign becomes completed
      exactly when nothing remains, whatever its status was: a cancelled one too. */
  lemma SettleFresh(w: World, call: Id, how: Outcome, now: Instant, id: Id)
    requires Listed(w) && ContactOf(w, call, 0) == Some(id) && id in w.contacts
    requires w.contacts[id].campaign in w.campaigns
    ensures var w' := Settle(w, call, how, now); var campaign := w.contacts[id].campaign;
            && Listed(w') && w'.campaigns[campaign].stats == Some(FreshStats(w', campaign))
            && w'.campaigns[campaign].status ==
               (if FreshStats(w', campaign).remaining == 0 then Completed else w.campaigns[campaign].status)
  {
    var campaign := w.contacts[id].campaign;
    var next := RetryAt(how, w.contacts[id].attempts, w.campaigns[campaign].schedule.retry, now);
    var v := WithContact(w, id, if next.Some? then Retry else if how == Answered then Done else Ended(how), next);
    StatsSame(v, WithStats(v, campaign), campaign);
  }
}
