/**
 * What one runner tick does: every dispatch is legal, every claimed contact ends in exactly one
 * of three ways unless a schedule cannot be read, and the reported totals add up.
 */
module DialerTicks {
  import opened Wrappers
  import opened Campaigns
  import opened Dialer
  import opened DialerSafety

  /** Calls and dispatches are only added, and call numbers only grow. */
  ghost predicate Grows(w: World, w1: World) {
    && w.nextCall <= w1.nextCall && w.dispatches <= w1.dispatches && CallsNumbered(w1)
    && forall id :: id in w.calls ==> id in w1.calls && w1.calls[id] == w.calls[id]
  }

  /** Only contact `id` may differ. */
  ghost predicate ContactsKept(w: World, w1: World, id: Id) {
    && w1.contacts.Keys == w.contacts.Keys
    && forall other :: other in w.contacts && other != id ==> w1.contacts[other] == w.contacts[other]
  }

  /** The contact is calling over a call created since `first`, queued for its own campaign. */
  ghost predicate IsDialed(w: World, item: Claim, first: Id)
    requires item.id in w.contacts
  {
    var c := w.contacts[item.id];
    && c.status == Calling && c.nextAttempt == None && c.lastCall.Some? && first <= c.lastCall.value
    && c.lastCall.value in w.calls
    && w.calls[c.lastCall.value] == Call(item.contact.tenant, Some(item.contact.campaign), Queued)
  }

  ghost predicate IsDeferred(w: World, item: Claim, now: Instant)
    requires item.id in w.contacts
  {
    var c := w.contacts[item.id];
    c.status == Retry && c.nextAttempt.Some? && c.nextAttempt.value > now && c.lastCall == item.contact.lastCall
  }

  ghost predicate IsRejected(w: World, item: Claim)
    requires item.id in w.contacts
  {
    var c := w.contacts[item.id];
    c.status == Ended(Failed) && c.nextAttempt == None && c.lastCall == item.contact.lastCall
  }

  /** How a claimed contact may look after the tick. The three cases exclude each other. */
  ghost predicate Processed(w: World, item: Claim, first: Id, now: Instant) {
    && item.id in w.contacts && w.contacts[item.id].attempts == item.contact.attempts
    && (IsDialed(w, item, first) || IsDeferred(w, item, now) || IsRejected(w, item))
  }

  /** A dispatch of claim `item`: at a legal time, over the contact's own fresh call. */
  ghost predicate LegalDispatch(zones: Zones, w: World, d: Dispatch, item: Claim, first: Id, now: Instant) {
    && d.contact == item.id && d.at == now && first <= d.call < w.nextCall
    && d.call in w.calls && w.calls[d.call] == Call(item.contact.tenant, Some(item.contact.campaign), Queued)
    && LegalTime(zones, item.schedule, item.contact.timezone, now)
  }

  /** What carrying out a decision leaves: a crash changes nothing, anything else processes the
      contact and no other, and only connecting dispatches it. */
  lemma CarriedContact(w: World, item: Claim, now: Instant, d: Decision)
    requires item.id in w.contacts && w.contacts[item.id] == item.contact && item.contact.status == Calling
    requires d.Postpone? ==> d.delay > 0 && (d.verdict.Deferred? || d.verdict.Rejected?)
    ensures var (w1, v) := CarryOut(w, item, now, d);
            && (v.Crashed? <==> d.Crash?) && (v.Crashed? ==> w1 == w) && (v.Dispatched? <==> d.Connect?)
            && ContactsKept(w, w1, item.id) && (!v.Crashed? ==> Processed(w1, item, w.nextCall, now))
            && (!v.Crashed? ==> (v.Dispatched? <==> IsDialed(w1, item, w.nextCall)))
  {
  }

  lemma CarriedGrows(w: World, item: Claim, now: Instant, d: Decision)
    requires CallsNumbered(w) && item.id in w.contacts
    ensures var w1 := CarryOut(w, item, now, d).0;
            && Grows(w, w1)
            && w1.dispatches == w.dispatches + (if d.Connect? then [Dispatch(item.id, w.nextCall, now)] else [])
            && (d.Connect? ==>
                  w1.nextCall == w.nextCall + 1 && w.nextCall in w1.calls && w1.calls[w.nextCall] == CallFor(item))
  {
  }

  lemma Decided(zones: Zones, w: World, item: Claim, now: Instant, answer: Answer)
    ensures var d := Decide(zones, w, item, now, answer);
            && (d.Crash? <==> Unreadable(zones, item, now))
            && (d.Postpone? ==> d.delay > 0 && (d.verdict.Deferred? || d.verdict.Rejected?))
            && (d.Connect? ==> LegalTime(zones, item.schedule, item.contact.timezone, now))
  {
  }

  lemma DialOneProcesses(zones: Zones, w: World, item: Claim, now: Instant, answer: Answer)
    requires CallsNumbered(w) && item.id in w.contacts && w.contacts[item.id] == item.contact
    requires item.contact.status == Calling
    ensures var (w1, v) := DialOne(zones, w, item, now, answer);
            && (v.Crashed? <==> Unreadable(zones, item, now)) && (v.Crashed? ==> w1 == w)
            && Grows(w, w1) && ContactsKept(w, w1, item.id) && (!v.Crashed? ==> Processed(w1, item, w.nextCall, now))
            && w1.dispatches == w.dispatches + (if v.Dispatched? then [Dispatch(item.id, w.nextCall, now)] else [])
            && (v.Dispatched? ==> LegalDispatch(zones, w1, Dispatch(item.id, w.nextCall, now), item, w.nextCall, now))
  {
    var d := Decide(zones, w, item, now, answer);
    Decided(zones, w, item, now, answer);
    CarriedContact(w, item, now, d);
    CarriedGrows(w, item, now, d);
  }

  /** Each dispatch since `w0` is a legal one of one of the first `k` claims. */
  ghost predicate AllLegal(zones: Zones, w0: World, w: World, claimed: seq<Claim>, k: nat, now: Instant)
    requires k <= |claimed|
  {
    forall n :: |w0.dispatches| <= n < |w.dispatches| ==>
      LegalOfSome(zones, w, w.dispatches[n], claimed[..k], w0.nextCall, now)
  }

  ghost predicate LegalOfSome(zones: Zones, w: World, d: Dispatch, claimed: seq<Claim>, first: Id, now: Instant) {
    exists j :: 0 <= j < |claimed| && LegalDispatch(zones, w, d, claimed[j], first, now)
  }

  /** The tick's loop so far: claims before `k` are processed, the others are as claimed, and
      each dispatch is a legal one of a processed claim. */
  ghost predicate Ticking(zones: Zones, w0: World, w: World, claimed: seq<Claim>, k: nat, now: Instant, t: Totals) {
    && k <= |claimed| && Grows(w0, w) && w.contacts.Keys == w0.contacts.Keys
    && (forall j :: 0 <= j < k ==> Processed(w, claimed[j], w0.nextCall, now))
    && (forall j :: k <= j < |claimed| ==>
          claimed[j].id in w.contacts && w.contacts[claimed[j].id] == claimed[j].contact)
    && (forall id :: id in w0.contacts && (forall j :: 0 <= j < k ==> claimed[j].id != id) ==>
          w.contacts[id] == w0.contacts[id])
    && AllLegal(zones, w0, w, claimed, k, now)
    && t.dispatched + t.deferred + t.failed == k && t.dispatched == |w.dispatches| - |w0.dispatches|
  }

  lemma StaysProcessed(w: World, w1: World, item: Claim, first: Id, now: Instant)
    requires Processed(w, item, first, now) && Grows(w, w1) && item.id in w1.contacts
    requires w1.contacts[item.id] == w.contacts[item.id]
    ensures Processed(w1, item, first, now)
  {
  }

  lemma ProcessedSince(w: World, item: Claim, later: Id, first: Id, now: Instant)
    requires Processed(w, item, later, now) && first <= later
    ensures Processed(w, item, first, now)
  {
  }

  lemma TickingStep(zones: Zones, w0: World, w: World, claimed: seq<Claim>, k: nat, now: Instant, answer: Answer,
                    t: Totals)
    requires Ticking(zones, w0, w, claimed, k, now, t) && k < |claimed| && DistinctClaims(claimed)
    requires claimed[k].contact.status == Calling
    requires !Unreadable(zones, claimed[k], now)
    ensures var (w1, v) := DialOne(zones, w, claimed[k], now, answer);
            !v.Crashed? && Ticking(zones, w0, w1, claimed, k + 1, now, Counted(t, v))
  {
    var item := claimed[k];
    var (w1, v) := DialOne(zones, w, item, now, answer);
    DialOneProcesses(zones, w, item, now, answer);
    ProcessedSoFar(w0, w, w1, claimed, k, now);
    LegalSoFar(zones, w0, w, w1, claimed, k, now, v.Dispatched?);
    forall id | id in w0.contacts && (forall j :: 0 <= j < k + 1 ==> claimed[j].id != id)
      ensures w1.contacts[id] == w0.contacts[id]
    {
      assert claimed[k].id != id;
    }
  }

  lemma ProcessedSoFar(w0: World, w: World, w1: World, claimed: seq<Claim>, k: nat, now: Instant)
    requires k < |claimed| && DistinctClaims(claimed) && Grows(w0, w) && Grows(w, w1)
    requires ContactsKept(w, w1, claimed[k].id)
    requires forall j :: 0 <= j < k ==> Processed(w, claimed[j], w0.nextCall, now)
    requires Processed(w1, claimed[k], w.nextCall, now)
    ensures forall j :: 0 <= j < k + 1 ==> Processed(w1, claimed[j], w0.nextCall, now)
  {
    forall j | 0 <= j < k + 1 ensures Processed(w1, claimed[j], w0.nextCall, now) {
      if j < k {
        assert claimed[j].id != claimed[k].id;
        StaysProcessed(w, w1, claimed[j], w0.nextCall, now);
      } else {
        ProcessedSince(w1, claimed[k], w.nextCall, w0.nextCall, now);
      }
    }
  }

  lemma LegalSoFar(zones: Zones, w0: World, w: World, w1: World, claimed: seq<Claim>, k: nat, now: Instant,
                   dispatched: bool)
    requires k < |claimed| && Grows(w0, w) && Grows(w, w1) && AllLegal(zones, w0, w, claimed, k, now)
    requires w1.dispatches == w.dispatches + if dispatched then [Dispatch(claimed[k].id, w.nextCall, now)] else []
    requires dispatched ==>
               LegalDispatch(zones, w1, Dispatch(claimed[k].id, w.nextCall, now), claimed[k], w.nextCall, now)
    ensures AllLegal(zones, w0, w1, claimed, k + 1, now)
  {
    forall n | |w0.dispatches| <= n < |w1.dispatches|
      ensures LegalOfSome(zones, w1, w1.dispatches[n], claimed[..k + 1], w0.nextCall, now)
    {
      if n < |w.dispatches| {
        assert w1.dispatches[n] == w.dispatches[n];
        StaysLegal(zones, w, w1, w.dispatches[n], claimed[..k], claimed[..k + 1], w0.nextCall, now);
      } else {
        assert claimed[..k + 1][k] == claimed[k];
        assert LegalDispatch(zones, w1, w1.dispatches[n], claimed[..k + 1][k], w0.nextCall, now);
      }
    }
  }

  lemma StaysLegal(zones: Zones, w: World, w1: World, d: Dispatch, claimed: seq<Claim>, more: seq<Claim>, first: Id,
                   now: Instant)
    requires LegalOfSome(zones, w, d, claimed, first, now) && Grows(w, w1) && claimed <= more
    ensures LegalOfSome(zones, w1, d, more, first, now)
  {
    var j :| 0 <= j < |claimed| && LegalDispatch(zones, w, d, claimed[j], first, now);
    assert LegalDispatch(zones, w1, d, more[j], first, now);
  }

  /** The first claim that cannot be read, or the number of claims. */
  function FirstUnreadable(zones: Zones, claimed: seq<Claim>, k: nat, now: Instant): (n: nat)
    requires k <= |claimed|
    ensures k <= n <= |claimed|
    ensures forall j :: k <= j < n ==> !Unreadable(zones, claimed[j], now)
    ensures n < |claimed| ==> Unreadable(zones, claimed[n], now)
    decreases |claimed| - k
  {
    if k == |claimed| || Unreadable(zones, claimed[k], now) then k else FirstUnreadable(zones, claimed, k + 1, now)
  }

  lemma {:induction false} TickingEnd(
    zones: Zones, w0: World, w: World, claimed: seq<Claim>, k: nat, now: Instant, answers: nat -> Answer, t: Totals)
    requires Ticking(zones, w0, w, claimed, k, now, t) && DistinctClaims(claimed)
    requires forall j :: 0 <= j < |claimed| ==> claimed[j].contact.status == Calling
    ensures var (w', t', done) := DialFrom(zones, w, claimed, k, now, answers, t);
            done == FirstUnreadable(zones, claimed, k, now) && Ticking(zones, w0, w', claimed, done, now, t')
    decreases |claimed| - k
  {
    if k < |claimed| {
      if Unreadable(zones, claimed[k], now) {
        DialOneProcesses(zones, w, claimed[k], now, answers(k));
      } else {
        var (w1, v) := DialOne(zones, w, claimed[k], now, answers(k));
        TickingStep(zones, w0, w, claimed, k, now, answers(k), t);
        TickingEnd(zones, w0, w1, claimed, k + 1, now, answers, Counted(t, v));
      }
    }
  }

  lemma TickRuns(zones: Zones, w: World, now: Instant, claimNow: Instant, answers: nat -> Answer)
    requires Listed(w) && DistinctOrder(w) && CallsNumbered(w)
    ensures var tick := Tick(zones, w, now, claimNow, answers);
            var w1 := ClaimFrom(w, 0, claimNow, CLAIM_LIMIT, []).0;
            && tick.done == FirstUnreadable(zones, tick.claims, 0, now)
            && Claims(w, w1, tick.claims, claimNow)
            && Ticking(zones, w1, tick.world, tick.claims, tick.done, now, tick.totals)
  {
    var (w1, claimed) := ClaimFrom(w, 0, claimNow, CLAIM_LIMIT, []);
    ClaimFromClaims(w, w, 0, claimNow, CLAIM_LIMIT, []);
    forall j | 0 <= j < |claimed| ensures claimed[j].contact.status == Calling {
      assert ClaimedFrom(w, claimed[j], claimNow);
    }
    TickingEnd(zones, w1, w1, claimed, 0, now, answers, Totals(0, 0, 0));
  }

  /** Seen from the state `w` before the tick, the dispatch is legal: its contact was waiting and
      due and off the do-not-call list, its campaign was running, and the local time was on an
      allowed weekday, inside the schedule's window and inside 8h to 20h. */
  ghost predicate Legal(zones: Zones, w: World, d: Dispatch, now: Instant, claimNow: Instant) {
    && d.contact in w.contacts && d.at == now
    && var c := w.contacts[d.contact];
    && c.campaign in w.campaigns && w.campaigns[c.campaign].status == Running
    && (c.status == Pending || c.status == Retry)
    && (c.nextAttempt.Some? ==> c.nextAttempt.value <= claimNow)
    && (c.tenant, c.phone) !in w.doNotCall
    && LegalTime(zones, w.campaigns[c.campaign].schedule, c.timezone, now)
  }

  /** Every dispatch of a tick was legal, and its call is new and the contact's own. */
  lemma TickDispatchesLegally(zones: Zones, w: World, now: Instant, claimNow: Instant, answers: nat -> Answer, n: nat)
    requires Listed(w) && DistinctOrder(w) && CallsNumbered(w)
    requires |w.dispatches| <= n < |Tick(zones, w, now, claimNow, answers).world.dispatches|
    ensures var w' := Tick(zones, w, now, claimNow, answers).world;
            var d := w'.dispatches[n];
            && Legal(zones, w, d, now, claimNow)
            && d.call !in w.calls && d.call in w'.calls
            && w'.calls[d.call] == Call(w.contacts[d.contact].tenant, Some(w.contacts[d.contact].campaign), Queued)
  {
    TickRuns(zones, w, now, claimNow, answers);
    var tick := Tick(zones, w, now, claimNow, answers);
    var w1 := ClaimFrom(w, 0, claimNow, CLAIM_LIMIT, []).0;
    var d := tick.world.dispatches[n];
    assert LegalOfSome(zones, tick.world, d, tick.claims[..tick.done], w1.nextCall, now);
    var j :| 0 <= j < tick.done && LegalDispatch(zones, tick.world, d, tick.claims[..tick.done][j], w1.nextCall, now);
    assert w1.nextCall == w.nextCall && ClaimedFrom(w, tick.claims[j], claimNow);
    LegalFromStart(zones, w, tick.world, d, tick.claims[j], now, claimNow);
  }

  lemma LegalFromStart(zones: Zones, w: World, w1: World, d: Dispatch, item: Claim, now: Instant, claimNow: Instant)
    requires CallsNumbered(w) && ClaimedFrom(w, item, claimNow) && LegalDispatch(zones, w1, d, item, w.nextCall, now)
    ensures Legal(zones, w, d, now, claimNow) && d.call !in w.calls && d.call in w1.calls
    ensures w1.calls[d.call] == Call(w.contacts[d.contact].tenant, Some(w.contacts[d.contact].campaign), Queued)
  {
  }

  /** After a tick each claim before the first that cannot be read is exactly one of: calling over
      its own fresh call, due later than now, or failed. That one and those after it are left
      calling as they were claimed, without a new call. The other contacts are untouched, and the
      totals account for every claim that was reached. So the tick accounts for all it claimed,
      and answers, exactly when every claim can be read. */
  lemma TickPartitions(zones: Zones, w: World, now: Instant, claimNow: Instant, answers: nat -> Answer)
    requires Listed(w) && DistinctOrder(w) && CallsNumbered(w)
    ensures var tick := Tick(zones, w, now, claimNow, answers);
            && tick.world.contacts.Keys == w.contacts.Keys
            && tick.done == FirstUnreadable(zones, tick.claims, 0, now)
            && (tick.done == |tick.claims| <==>
                forall j :: 0 <= j < |tick.claims| ==> !Unreadable(zones, tick.claims[j], now))
            && (forall j :: 0 <= j < tick.done ==> Processed(tick.world, tick.claims[j], w.nextCall, now))
            && (forall j :: tick.done <= j < |tick.claims| ==> Stranded(w, tick.world, tick.claims[j].id))
            && tick.done == tick.totals.dispatched + tick.totals.deferred + tick.totals.failed
            && tick.totals.dispatched == |tick.world.dispatches| - |w.dispatches|
    ensures var tick := Tick(zones, w, now, claimNow, answers);
            && (forall j :: 0 <= j < |tick.claims| ==> Attempted(w, tick.world, tick.claims[j].id))
            && (forall id :: id in w.contacts && (forall j :: 0 <= j < |tick.claims| ==> tick.claims[j].id != id) ==>
                  tick.world.contacts[id] == w.contacts[id])
  {
    TickRuns(zones, w, now, claimNow, answers);
    var claimed := Tick(zones, w, now, claimNow, answers).claims;
    forall j | 0 <= j < |claimed|
      ensures claimed[j].id in w.contacts && claimed[j].contact == ClaimedContact(w.contacts[claimed[j].id])
    {
      assert ClaimedFrom(w, claimed[j], claimNow);
    }
  }

  /** Calling, one attempt further, over no call of this tick. */
  ghost predicate Stranded(w: World, w1: World, id: Id) {
    id in w.contacts && id in w1.contacts && w1.contacts[id] == ClaimedContact(w.contacts[id])
  }

  ghost predicate Attempted(w: World, w1: World, id: Id) {
    id in w.contacts && id in w1.contacts && w1.contacts[id].attempts == w.contacts[id].attempts + 1
  }
}
