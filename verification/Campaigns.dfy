/**
 * The pure rules of outbound campaigns (apps/api/voiceos_api/campaigns.py): lifecycle, the
 * legal dialing window, retry times and the reference selection of contacts.
 */
module Campaigns {
  import opened Wrappers

  type Id = nat

  /** Instants, delays and times of day are counted in microseconds. */
  type Instant = int

  const SECOND := 1_000_000
  const HOUR := 3600 * SECOND
  const LEGAL_START := 8 * HOUR
  const LEGAL_END := 20 * HOUR

  datatype RetryPolicy = RetryPolicy(maxAttempts: int, delays: seq<int>)

  /** Local time in a zone: weekday 0..6 and time of day. */
  datatype Local = Local(weekday: int, time: int)

  /** The time-zone database. A name that is no relative path at all raises. */
  datatype Zone = UnknownZone | BadName | At(local: Local)
  type Zones = (string, Instant) -> Zone

  /** A stored field, which raises when it is read if it does not parse. */
  datatype Field<+T> = Parsed(value: T) | Malformed

  datatype Window = Window(start: int, end: int)

  /** Schedules are stored as they were sent. */
  datatype Schedule = Schedule(
    timezone: string, days: Field<set<int>>, window: Field<Window>,
    maxConcurrency: Field<Option<int>>, retry: RetryPolicy)

  datatype CampaignStatus = Draft | Running | Paused | Completed | Cancelled

  datatype Action = Start | Pause | Resume | Cancel

  datatype Outcome = Answered | NoAnswer | Busy | Failed | Aborted

  datatype ContactStatus = Pending | Retry | Calling | Done | Ended(how: Outcome)

  datatype CallStatus = Queued | Ringing | InProgress | Finished(how: Outcome) | Unknown(name: string)

  datatype Contact = Contact(
    tenant: Id, campaign: Id, phone: string, timezone: Option<string>, status: ContactStatus,
    attempts: nat, lastCall: Option<Id>, nextAttempt: Option<Instant>)

  datatype Call = Call(tenant: Id, campaign: Option<Id>, status: CallStatus)

  function Max(a: int, b: int): int { if a > b then a else b }

  function Min(a: int, b: int): int { if a < b then a else b }

  function TransitionStatus(current: CampaignStatus, action: Action): Option<CampaignStatus> {
    match (action, current)
    case (Start, Draft) => Some(Running)
    case (Start, Paused) => Some(Running)
    case (Pause, Running) => Some(Paused)
    case (Resume, Paused) => Some(Running)
    case (Cancel, Draft) => Some(Cancelled)
    case (Cancel, Running) => Some(Cancelled)
    case (Cancel, Paused) => Some(Cancelled)
    case _ => None
  }

  /** The zone a contact is dialed in: its own when it has one. */
  function ZoneOf(schedule: Schedule, contactTimezone: Option<string>): string {
    if contactTimezone.Some? && contactTimezone.value != "" then contactTimezone.value else schedule.timezone
  }

  datatype Permission = Allowed | Forbidden | Raises

  /** `dialing_allowed`: the fields are read in this order, and not beyond the first that says no. */
  function DialingAllowed(zones: Zones, schedule: Schedule, now: Instant, contactTimezone: Option<string>): Permission {
    match zones(ZoneOf(schedule, contactTimezone), now)
    case UnknownZone => Forbidden
    case BadName => Raises
    case At(local) =>
      if schedule.days.Malformed? then Raises
      else if local.weekday !in schedule.days.value then Forbidden
      else if schedule.window.Malformed? then Raises
      else if Max(schedule.window.value.start, LEGAL_START) <= local.time < Min(schedule.window.value.end, LEGAL_END)
      then Allowed
      else Forbidden
  }

  /** Inside the schedule's window and inside the legal hours, in the contact's own zone. */
  predicate LegalTime(zones: Zones, schedule: Schedule, timezone: Option<string>, now: Instant) {
    var local := zones(if timezone.Some? && timezone.value != "" then timezone.value else schedule.timezone, now);
    && local.At? && schedule.days.Parsed? && schedule.window.Parsed?
    && local.local.weekday in schedule.days.value
    && schedule.window.value.start <= local.local.time < schedule.window.value.end
    && 8 * HOUR <= local.local.time < 20 * HOUR
  }

  /** The hours are read in the order zone, weekdays, window, and not beyond the first that says no. */
  lemma HoursExactly(zones: Zones, schedule: Schedule, now: Instant, own: Option<string>)
    ensures var zone := zones(if own.Some? && own.value != "" then own.value else schedule.timezone, now);
            var p := DialingAllowed(zones, schedule, now, own);
            && (p == Allowed <==> LegalTime(zones, schedule, own, now))
            && (p == Raises <==>
                  || zone == BadName
                  || (zone.At? && schedule.days.Malformed?)
                  || (zone.At? && zone.local.weekday in schedule.days.value && schedule.window.Malformed?))
  {
  }

  /** A campaign is started from draft or pause, paused while it runs, resumed from pause, and
      cancelled from any of the three; nothing else. */
  lemma TransitionExactly(current: CampaignStatus, action: Action)
    ensures var to := TransitionStatus(current, action);
            && (to == Some(Running) <==>
                  (action == Start && current in {Draft, Paused}) || (action == Resume && current == Paused))
            && (to == Some(Paused) <==> action == Pause && current == Running)
            && (to == Some(Cancelled) <==> action == Cancel && current in {Draft, Running, Paused})
            && to !in {Some(Draft), Some(Completed)}
  {
  }

  predicate IsActive(status: CallStatus) {
    status.Queued? || status.Ringing? || status.InProgress?
  }

  predicate Retryable(how: Outcome) {
    how == NoAnswer || how == Busy || how == Failed
  }

  function RetryAt(how: Outcome, attempts: nat, policy: RetryPolicy, now: Instant): Option<Instant> {
    if !Retryable(how) then None
    else if attempts >= policy.maxAttempts then None
    else Some(now + SECOND * if policy.delays == [] then 300
                             else policy.delays[Min(Max(attempts - 1, 0), |policy.delays| - 1)])
  }

  /** A retry is granted exactly to a retryable outcome with attempts left, and its delay is the
      one of the attempt just made, the last one repeating. */
  lemma RetryAtExact(how: Outcome, attempts: nat, policy: RetryPolicy, now: Instant)
    ensures RetryAt(how, attempts, policy, now).Some? <==>
            (how == NoAnswer || how == Busy || how == Failed) && attempts < policy.maxAttempts
    ensures RetryAt(how, attempts, policy, now).Some? && 1 <= attempts <= |policy.delays| ==>
            RetryAt(how, attempts, policy, now).value == now + SECOND * policy.delays[attempts - 1]
    ensures RetryAt(how, attempts, policy, now).Some? && attempts > |policy.delays| > 0 ==>
            RetryAt(how, attempts, policy, now).value == now + SECOND * policy.delays[|policy.delays| - 1]
  {
  }

  // ---------------------------------------------------------------------- select_dispatchable

  predicate Candidate(c: Contact, blocked: set<string>, now: Instant) {
    && (c.status.Pending? || c.status.Retry?)
    && c.phone !in blocked
    && (c.nextAttempt.Some? ==> c.nextAttempt.value <= now)
  }

  predicate Due(zones: Zones, schedule: Schedule, c: Contact, blocked: set<string>, now: Instant) {
    Candidate(c, blocked, now) && DialingAllowed(zones, schedule, now, c.timezone) == Allowed
  }

  /** Looking at the contact raises. */
  predicate RaisesFor(zones: Zones, schedule: Schedule, c: Contact, blocked: set<string>, now: Instant) {
    Candidate(c, blocked, now) && DialingAllowed(zones, schedule, now, c.timezone) == Raises
  }

  function DueOnly(zones: Zones, schedule: Schedule, contacts: seq<Contact>, blocked: set<string>,
                   now: Instant): seq<Contact> {
    if contacts == [] then []
    else
      var front := DueOnly(zones, schedule, contacts[..|contacts| - 1], blocked, now);
      var last := contacts[|contacts| - 1];
      if Due(zones, schedule, last, blocked, now) then front + [last] else front
  }

  function CountActive(calls: seq<Call>, campaign: Id): nat {
    if calls == [] then 0
    else CountActive(calls[..|calls| - 1], campaign) +
         if calls[|calls| - 1].campaign == Some(campaign) && IsActive(calls[|calls| - 1].status) then 1 else 0
  }

  /** The smaller of the configured and the plan's limit, but not negative. */
  function Limit(configured: Option<int>, planLimit: int): int {
    Max(0, Min(if configured.Some? then configured.value else planLimit, planLimit))
  }

  /** Who is due: waiting, off the do-not-call list, not before the next attempt, in legal hours. */
  lemma DueExactly(zones: Zones, schedule: Schedule, c: Contact, blocked: set<string>, now: Instant)
    ensures Due(zones, schedule, c, blocked, now) <==>
            && (c.status == Pending || c.status == Retry) && c.phone !in blocked
            && (c.nextAttempt == None || c.nextAttempt.value <= now)
            && LegalTime(zones, schedule, c.timezone, now)
  {
  }

  /** The due contacts are all there, as often as they were. */
  lemma {:induction false} DueOnlyCounts(zones: Zones, schedule: Schedule, contacts: seq<Contact>, blocked: set<string>,
                                         now: Instant, c: Contact)
    ensures multiset(DueOnly(zones, schedule, contacts, blocked, now))[c]
            == if Due(zones, schedule, c, blocked, now) then multiset(contacts)[c] else 0
  {
    if contacts != [] {
      var n := |contacts| - 1;
      DueOnlyCounts(zones, schedule, contacts[..n], blocked, now, c);
      assert contacts == contacts[..n] + [contacts[n]];
    }
  }

  /** And in order: what is due of two lists is what is due of the one, then what is due of the
      other. */
  lemma {:induction false} DueOnlySplits(zones: Zones, schedule: Schedule, contacts: seq<Contact>, more: seq<Contact>,
                                         blocked: set<string>, now: Instant)
    ensures DueOnly(zones, schedule, contacts + more, blocked, now)
            == DueOnly(zones, schedule, contacts, blocked, now) + DueOnly(zones, schedule, more, blocked, now)
  {
    if more == [] {
      assert contacts + more == contacts;
    } else {
      var n := |more| - 1;
      DueOnlySplits(zones, schedule, contacts, more[..n], blocked, now);
      DueOnlySnoc(zones, schedule, contacts + more[..n], more[n], blocked, now);
      assert contacts + more == contacts + more[..n] + [more[n]];
    }
  }

  lemma DueOnlySnoc(zones: Zones, schedule: Schedule, contacts: seq<Contact>, last: Contact, blocked: set<string>,
                    now: Instant)
    ensures DueOnly(zones, schedule, contacts + [last], blocked, now)
            == DueOnly(zones, schedule, contacts, blocked, now)
               + if Due(zones, schedule, last, blocked, now) then [last] else []
  {
    assert (contacts + [last])[..|contacts|] == contacts;
  }

  function ActiveIn(calls: seq<Call>, campaign: Id): set<nat> {
    set i: nat | i < |calls| && calls[i].campaign == Some(campaign) && calls[i].status in {Queued, Ringing, InProgress}
  }

  lemma {:induction false} CountActiveIs(calls: seq<Call>, campaign: Id)
    ensures CountActive(calls, campaign) == |ActiveIn(calls, campaign)|
  {
    if calls != [] {
      var n := |calls| - 1;
      CountActiveIs(calls[..n], campaign);
      var before, after := ActiveIn(calls[..n], campaign), ActiveIn(calls, campaign);
      assert after == before + if n in after then {n} else {};
    }
  }

  /** The loops of `select_dispatchable`. It raises exactly when something it reads does not parse;
      otherwise the result is the longest prefix of the due contacts that fits the free capacity,
      and empty outside a running campaign or its hours. */
  method SelectDispatchable(zones: Zones, campaign: Id, status: CampaignStatus, schedule: Schedule,
                            contacts: seq<Contact>, calls: seq<Call>, blocked: set<string>, now: Instant,
                            planLimit: int)
      returns (selected: Option<seq<Contact>>)
    ensures var here := DialingAllowed(zones, schedule, now, None);
            selected.None? <==>
              status.Running? && (here == Raises || (here == Allowed &&
                (schedule.maxConcurrency.Malformed? ||
                 exists c :: c in contacts && RaisesFor(zones, schedule, c, blocked, now))))
    ensures selected.Some? && !(status.Running? && DialingAllowed(zones, schedule, now, None) == Allowed) ==>
              selected.value == []
    ensures selected.Some? && status.Running? && DialingAllowed(zones, schedule, now, None) == Allowed ==>
              var due := DueOnly(zones, schedule, contacts, blocked, now);
              var own := schedule.maxConcurrency.value;
              var limit := if own.Some? && own.value < planLimit then own.value else planLimit;
              var free := limit - |ActiveIn(calls, campaign)|;
              selected.value == if free <= 0 then [] else if free < |due| then due[..free] else due
    ensures selected.Some? ==>
              forall c :: c in selected.value ==> c in contacts && Due(zones, schedule, c, blocked, now)
  {
    if !status.Running? {
      return Some([]);
    }
    var here := DialingAllowed(zones, schedule, now, None);
    if here != Allowed {
      return if here == Raises then None else Some([]);
    }
    if schedule.maxConcurrency.Malformed? {
      return None;
    }
    var active := 0;
    for i := 0 to |calls|
      invariant active == CountActive(calls[..i], campaign)
    {
      assert calls[..i + 1][..i] == calls[..i];
      if calls[i].campaign == Some(campaign) && IsActive(calls[i].status) {
        active := active + 1;
      }
    }
    assert calls[..|calls|] == calls;
    CountActiveIs(calls, campaign);
    var available := Max(0, Limit(schedule.maxConcurrency.value, planLimit) - active);
    var due: seq<Contact> := [];
    for i := 0 to |contacts|
      invariant due == DueOnly(zones, schedule, contacts[..i], blocked, now)
      invariant forall c :: c in due ==> c in contacts && Due(zones, schedule, c, blocked, now)
      invariant forall k :: 0 <= k < i ==> !RaisesFor(zones, schedule, contacts[k], blocked, now)
    {
      var c := contacts[i];
      assert contacts[..i + 1][..i] == contacts[..i];
      if Candidate(c, blocked, now) {
        var there := DialingAllowed(zones, schedule, now, c.timezone);
        if there == Raises {
          assert c in contacts && RaisesFor(zones, schedule, c, blocked, now);
          return None;
        }
        if there == Allowed {
          due := due + [c];
        }
      }
    }
    assert contacts[..|contacts|] == contacts;
    selected := Some(due[..Min(|due|, available)]);
  }
}
