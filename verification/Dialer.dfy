/**
 * The campaign dialer: claiming contacts, the runner tick and the end of a call, as they act
 * on the in-memory store (apps/api/voiceos_api/repository.py, apps/api/voiceos_api/routes.py).
 * Functions on a `World` say what each operation does; `DialerStore` does it in place.
 */
module Dialer {
  import opened Wrappers
  import opened Campaigns

  datatype Stats = Stats(total: nat, done: nat, failed: nat, remaining: nat)

  datatype Campaign = Campaign(tenant: Id, agent: Id, status: CampaignStatus, schedule: Schedule, stats: Option<Stats>)

  /** History variable: one entry for each contact the tick reports as dispatched. */
  datatype Dispatch = Dispatch(contact: Id, call: Id, at: Instant)

  /** The part of the store the dialer reads and writes. `order` is the insertion order of the
      contacts; `dispatches` is history only and is read by no operation. */
  datatype World = World(
    order: seq<Id>, contacts: map<Id, Contact>, campaigns: map<Id, Campaign>, calls: map<Id, Call>,
    doNotCall: set<(Id, string)>, planLimits: map<Id, int>, nextCall: Id, dispatches: seq<Dispatch>)

  /** What `claim_campaign_contacts` returns for a contact. */
  datatype Claim = Claim(id: Id, contact: Contact, agent: Id, schedule: Schedule)

  /** What the outside answers while one contact is processed: whether the agent is active and
      has a voice number and outbound SIP is configured, and which awaited step raises, if any. */
  datatype Answer = NotReady | UserRaises | CallRaises | ProvisionRaises | Connects

  /** `Crashed`: reading the schedule raised, outside of what the tick catches. */
  datatype Verdict = Dispatched | Deferred | Rejected | Crashed

  const DEFAULT_PLAN_LIMIT := 50

  function PlanLimit(w: World, tenant: Id): int {
    if tenant in w.planLimits then w.planLimits[tenant] else DEFAULT_PLAN_LIMIT
  }

  function CampaignLimit(w: World, tenant: Id, schedule: Schedule): int {
    var plan := PlanLimit(w, tenant);
    match schedule.maxConcurrency
    case Parsed(Some(n)) => Min(n, plan)
    case _ => plan
  }

  function ActiveCalls(w: World, tenant: Id): set<Id> {
    set id | id in w.calls && w.calls[id].tenant == tenant && IsActive(w.calls[id].status)
  }

  function CampaignCalls(w: World, tenant: Id, campaign: Id): set<Id> {
    set id | id in w.calls && w.calls[id].tenant == tenant && IsActive(w.calls[id].status)
      && w.calls[id].campaign == Some(campaign)
  }

  predicate Listed(w: World) {
    forall i :: 0 <= i < |w.order| ==> w.order[i] in w.contacts
  }

  // --------------------------------------------------------------------------------- claiming

  predicate Claimable(w: World, id: Id, now: Instant)
    requires id in w.contacts
  {
    var c := w.contacts[id];
    && c.campaign in w.campaigns && w.campaigns[c.campaign].status.Running?
    && (c.status.Pending? || c.status.Retry?)
    && (c.nextAttempt.Some? ==> c.nextAttempt.value <= now)
    && (c.tenant, c.phone) !in w.doNotCall
  }

  function ClaimedContact(c: Contact): Contact {
    c.(status := Calling, attempts := c.attempts + 1)
  }

  function ClaimOne(w: World, id: Id): (World, Claim)
    requires id in w.contacts && w.contacts[id].campaign in w.campaigns
  {
    var c := ClaimedContact(w.contacts[id]);
    var campaign := w.campaigns[c.campaign];
    (w.(contacts := w.contacts[id := c]), Claim(id, c, campaign.agent, campaign.schedule))
  }

  /** `claim_campaign_contacts` from position `i` of the contact order on. */
  function ClaimFrom(w: World, i: nat, now: Instant, limit: int, claimed: seq<Claim>): (World, seq<Claim>)
    requires Listed(w) && i <= |w.order|
    decreases |w.order| - i
  {
    if i == |w.order| then (w, claimed)
    else if !Claimable(w, w.order[i], now) then ClaimFrom(w, i + 1, now, limit, claimed)
    else
      var (w1, item) := ClaimOne(w, w.order[i]);
      if |claimed| + 1 >= limit then (w1, claimed + [item])
      else ClaimFrom(w1, i + 1, now, limit, claimed + [item])
  }

  // -------------------------------------------------------------------------------- one contact

  /** `update_campaign_contact_internal` with the fields it is given. */
  function WithContact(w: World, id: Id, status: ContactStatus, next: Option<Instant>): World {
    if id in w.contacts then w.(contacts := w.contacts[id := w.contacts[id].(status := status, nextAttempt := next)])
    else w
  }

  function WithCall(w: World, call: Call): World {
    w.(calls := w.calls[w.nextCall := call], nextCall := w.nextCall + 1)
  }

  function Linked(w: World, id: Id, call: Id, now: Instant): World {
    if id in w.contacts then
      w.(contacts := w.contacts[id := w.contacts[id].(status := Calling, lastCall := Some(call), nextAttempt := None)],
         dispatches := w.dispatches + [Dispatch(id, call, now)])
    else w
  }

  predicate AtCapacity(w: World, item: Claim) {
    || |ActiveCalls(w, item.contact.tenant)| >= PlanLimit(w, item.contact.tenant)
    || |CampaignCalls(w, item.contact.tenant, item.contact.campaign)|
       >= CampaignLimit(w, item.contact.tenant, item.schedule)
  }

  /** What raises while the claim is looked at: its zone, days or window, or, once dialing is
      allowed, its concurrency limit. */
  predicate Unreadable(zones: Zones, item: Claim, now: Instant) {
    match DialingAllowed(zones, item.schedule, now, item.contact.timezone)
    case Raises => true
    case Allowed => item.schedule.maxConcurrency.Malformed?
    case Forbidden => false
  }

  /** What the body of the tick's loop does with a claim: crash, put the contact off, give it up,
      lose the call that was created, or connect it. */
  datatype Decision = Crash | Postpone(delay: int, verdict: Verdict) | GiveUp | LoseCall | Connect

  function Decide(zones: Zones, w: World, item: Claim, now: Instant, answer: Answer): Decision {
    if Unreadable(zones, item, now) then Crash
    else if DialingAllowed(zones, item.schedule, now, item.contact.timezone) == Forbidden
    then Postpone(300 * SECOND, Deferred)
    else if AtCapacity(w, item) then Postpone(30 * SECOND, Deferred)
    else match answer
      case NotReady => GiveUp
      case UserRaises => Postpone(300 * SECOND, Rejected)
      case CallRaises => Postpone(300 * SECOND, Rejected)
      case ProvisionRaises => LoseCall
      case Connects => Connect
  }

  function CallFor(item: Claim): Call {
    Call(item.contact.tenant, Some(item.contact.campaign), Queued)
  }

  function CarryOut(w: World, item: Claim, now: Instant, d: Decision): (World, Verdict) {
    match d
    case Crash => (w, Crashed)
    case Postpone(delay, verdict) => (WithContact(w, item.id, Retry, Some(now + delay)), verdict)
    case GiveUp => (WithContact(w, item.id, Ended(Failed), None), Rejected)
    case LoseCall => (WithContact(WithCall(w, CallFor(item)), item.id, Retry, Some(now + 300 * SECOND)), Rejected)
    case Connect => (Linked(WithCall(w, CallFor(item)), item.id, w.nextCall, now), Dispatched)
  }

  /** The body of the tick's loop. */
  function DialOne(zones: Zones, w: World, item: Claim, now: Instant, answer: Answer): (World, Verdict) {
    CarryOut(w, item, now, Decide(zones, w, item, now, answer))
  }

  datatype Totals = Totals(dispatched: nat, deferred: nat, failed: nat)

  function Counted(t: Totals, v: Verdict): Totals {
    match v
    case Dispatched => t.(dispatched := t.dispatched + 1)
    case Deferred => t.(deferred := t.deferred + 1)
    case Rejected => t.(failed := t.failed + 1)
    case Crashed => t
  }

  /** The tick's loop from claim `k` on, and how many claims it got through; the outside answers
      `answers(k)` for claim `k`. */
  function DialFrom(zones: Zones, w: World, claimed: seq<Claim>, k: nat, now: Instant, answers: nat -> Answer,
                    t: Totals):
      (World, Totals, nat)
    requires k <= |claimed|
    decreases |claimed| - k
  {
    if k == |claimed| then (w, t, k)
    else
      var (w1, v) := DialOne(zones, w, claimed[k], now, answers(k));
      if v.Crashed? then (w, t, k) else DialFrom(zones, w1, claimed, k + 1, now, answers, Counted(t, v))
  }

  const CLAIM_LIMIT := 100

  /** A tick's state afterwards, what it claimed, how many claims it got through and its counts.
      It raises, and reports no counts, unless it got through all. */
  datatype Ticked = Ticked(world: World, claims: seq<Claim>, done: nat, totals: Totals)

  /** `campaign_runner_tick`: the claim reads its own clock, after the tick read `now`. */
  function Tick(zones: Zones, w: World, now: Instant, claimNow: Instant, answers: nat -> Answer): Ticked
    requires Listed(w)
  {
    var (w1, claimed) := ClaimFrom(w, 0, claimNow, CLAIM_LIMIT, []);
    var (w2, t, done) := DialFrom(zones, w1, claimed, 0, now, answers, Totals(0, 0, 0));
    Ticked(w2, claimed, done, t)
  }

  // ---------------------------------------------------------------------------- end of a call

  /** The first contact, in order, whose last call is `call`. */
  function ContactOf(w: World, call: Id, i: nat): Option<Id>
    requires Listed(w) && i <= |w.order|
    decreases |w.order| - i
  {
    if i == |w.order| then None
    else if w.contacts[w.order[i]].lastCall == Some(call) then Some(w.order[i])
    else ContactOf(w, call, i + 1)
  }

  predicate Open(status: ContactStatus) {
    status.Pending? || status.Retry? || status.Calling?
  }

  function CountIn(w: World, campaign: Id, i: nat, which: ContactStatus -> bool): nat
    requires Listed(w) && i <= |w.order|
  {
    if i == 0 then 0
    else
      var c := w.contacts[w.order[i - 1]];
      CountIn(w, campaign, i - 1, which) + if c.campaign == campaign && which(c.status) then 1 else 0
  }

  function FreshStats(w: World, campaign: Id): Stats
    requires Listed(w)
  {
    var n := |w.order|;
    Stats(CountIn(w, campaign, n, (s: ContactStatus) => true), CountIn(w, campaign, n, (s: ContactStatus) => s.Done?),
          CountIn(w, campaign, n, (s: ContactStatus) => !Open(s) && !s.Done?),
          CountIn(w, campaign, n, (s: ContactStatus) => Open(s)))
  }

  function WithStats(w: World, campaign: Id): World
    requires Listed(w) && campaign in w.campaigns
  {
    var stats := FreshStats(w, campaign);
    var c := w.campaigns[campaign].(stats := Some(stats));
    w.(campaigns := w.campaigns[campaign := if stats.remaining == 0 then c.(status := Completed) else c])
  }

  /** `update_internal_call` on the dialer's state: `status` is the patched status, if any. Any
      update of a finished campaign call settles its contact again. */
  function UpdateInternalCall(w: World, call: Id, status: Option<CallStatus>, now: Instant): World
    requires Listed(w)
  {
    if call !in w.calls then w
    else
      var updated := if status.Some? then w.calls[call].(status := status.value) else w.calls[call];
      var w1 := w.(calls := w.calls[call := updated]);
      if updated.campaign.None? || !updated.status.Finished? then w1
      else Settle(w1, call, updated.status.how, now)
  }

  function Settle(w: World, call: Id, how: Outcome, now: Instant): World
    requires Listed(w)
  {
    match ContactOf(w, call, 0)
    case None => w
    case Some(id) =>
      if id !in w.contacts || w.contacts[id].campaign !in w.campaigns then w
      else
        var c := w.contacts[id];
        var next := RetryAt(how, c.attempts, w.campaigns[c.campaign].schedule.retry, now);
        var status := if next.Some? then Retry else if how == Answered then Done else Ended(how);
        WithStats(WithContact(w, id, status, next), c.campaign)
  }
}
