/**
 * What a report of a call's end writes: which contact it settles, as what, until when, and the
 * totals of its campaign.
 */
module CallEnds {
  import opened Wrappers
  import opened Campaigns
  import opened Dialer

  /** `id` is the first contact, in order, whose last call is `call`. */
  ghost predicate FirstWith(w: World, call: Id, id: Id)
    requires Listed(w)
  {
    exists i :: IsFirstAt(w, call, i) && w.order[i] == id
  }

  ghost predicate IsFirstAt(w: World, call: Id, i: int)
    requires Listed(w)
  {
    && 0 <= i < |w.order| && w.contacts[w.order[i]].lastCall == Some(call)
    && forall k :: 0 <= k < i ==> w.contacts[w.order[k]].lastCall != Some(call)
  }

  lemma {:induction false} ContactOfFrom(w: World, call: Id, i: nat)
    requires Listed(w) && i <= |w.order| && forall k :: 0 <= k < i ==> w.contacts[w.order[k]].lastCall != Some(call)
    ensures match ContactOf(w, call, i)
            case Some(id) => FirstWith(w, call, id)
            case None => forall k :: 0 <= k < |w.order| ==> w.contacts[w.order[k]].lastCall != Some(call)
    decreases |w.order| - i
  {
    if i < |w.order| {
      if w.contacts[w.order[i]].lastCall == Some(call) {
        assert IsFirstAt(w, call, i);
      } else {
        ContactOfFrom(w, call, i + 1);
      }
    }
  }

  lemma FirstIsOne(w: World, call: Id, id: Id, other: Id)
    requires Listed(w) && FirstWith(w, call, id) && FirstWith(w, call, other)
    ensures id == other
  {
    var i :| IsFirstAt(w, call, i) && w.order[i] == id;
    var j :| IsFirstAt(w, call, j) && w.order[j] == other;
    assert i == j;
  }

  lemma ContactOfFirst(w: World, call: Id, id: Id)
    requires Listed(w) && FirstWith(w, call, id)
    ensures ContactOf(w, call, 0) == Some(id)
  {
    ContactOfFrom(w, call, 0);
    var i :| IsFirstAt(w, call, i) && w.order[i] == id;
    FirstIsOne(w, call, id, ContactOf(w, call, 0).value);
  }

  /** The pause before the next attempt, in seconds: that of the attempt just made, counted from
      one, the last one repeating; 300 when the policy lists none. */
  ghost predicate IsDelay(policy: RetryPolicy, attempts: nat, delay: int) {
    && (policy.delays == [] ==> delay == 300)
    && (policy.delays != [] && attempts == 0 ==> delay == policy.delays[0])
    && (1 <= attempts <= |policy.delays| ==> delay == policy.delays[attempts - 1])
    && (0 < |policy.delays| < attempts ==> delay == policy.delays[|policy.delays| - 1])
  }

  lemma RetryDelay(how: Outcome, attempts: nat, policy: RetryPolicy, now: Instant) returns (delay: int)
    ensures IsDelay(policy, attempts, delay)
    ensures RetryAt(how, attempts, policy, now)
            == if (how == NoAnswer || how == Busy || how == Failed) && attempts < policy.maxAttempts
               then Some(now + SECOND * delay) else None
  {
    delay := if policy.delays == [] then 300 else policy.delays[Min(Max(attempts - 1, 0), |policy.delays| - 1)];
  }

  /** The contact as a call that ended `how` leaves it. */
  ghost predicate Ends(c: Contact, c': Contact, how: Outcome, policy: RetryPolicy, now: Instant) {
    && c' == c.(status := c'.status, nextAttempt := c'.nextAttempt)
    && (if (how == NoAnswer || how == Busy || how == Failed) && c.attempts < policy.maxAttempts
        then c'.status == Retry && c'.nextAttempt.Some?
             && exists delay :: IsDelay(policy, c.attempts, delay) && c'.nextAttempt.value == now + SECOND * delay
        else c'.nextAttempt == None && c'.status == if how == Answered then Done else Ended(how))
  }

  // ------------------------------------------------------------------------------------ totals

  /** The places of the campaign's contacts with such a status. */
  ghost function Places(w: World, campaign: Id, i: nat, which: ContactStatus -> bool): set<nat>
    requires Listed(w) && i <= |w.order|
  {
    set k: nat | k < i && w.contacts[w.order[k]].campaign == campaign && which(w.contacts[w.order[k]].status)
  }

  lemma {:induction false} CountIsPlaces(w: World, campaign: Id, i: nat, which: ContactStatus -> bool)
    requires Listed(w) && i <= |w.order|
    ensures CountIn(w, campaign, i, which) == |Places(w, campaign, i, which)|
  {
    if i > 0 {
      CountIsPlaces(w, campaign, i - 1, which);
      PlacesNext(w, campaign, i - 1, which);
    }
  }

  lemma PlacesNext(w: World, campaign: Id, i: nat, which: ContactStatus -> bool)
    requires Listed(w) && i < |w.order|
    ensures var c := w.contacts[w.order[i]];
            |Places(w, campaign, i + 1, which)|
            == |Places(w, campaign, i, which)| + if c.campaign == campaign && which(c.status) then 1 else 0
  {
    var before, after := Places(w, campaign, i, which), Places(w, campaign, i + 1, which);
    assert forall k :: k in before <==> k in after && k != i;
    assert after == before + if i in after then {i} else {};
  }

  /** The four totals count the contacts of the campaign, those that are done, those that ended
      otherwise, and those that are waiting or being called. */
  ghost predicate Counts(w: World, campaign: Id, s: Stats)
    requires Listed(w)
  {
    && s.total == |set k: nat | k < |w.order| && w.contacts[w.order[k]].campaign == campaign|
    && s.done == |set k: nat | k < |w.order| && w.contacts[w.order[k]].campaign == campaign
                               && w.contacts[w.order[k]].status == Done|
    && s.failed == |set k: nat | k < |w.order| && w.contacts[w.order[k]].campaign == campaign
                                 && w.contacts[w.order[k]].status.Ended?|
    && s.remaining == |set k: nat | k < |w.order| && w.contacts[w.order[k]].campaign == campaign
                                    && w.contacts[w.order[k]].status in {Pending, Retry, Calling}|
  }

  lemma TotalsCount(w: World, campaign: Id)
    requires Listed(w)
    ensures Counts(w, campaign, FreshStats(w, campaign))
  {
    var n := |w.order|;
    var done, open := (s: ContactStatus) => s.Done?, (s: ContactStatus) => Open(s);
    var all, failed := (s: ContactStatus) => true, (s: ContactStatus) => !Open(s) && !s.Done?;
    CountIsPlaces(w, campaign, n, all);
    CountIsPlaces(w, campaign, n, done);
    CountIsPlaces(w, campaign, n, failed);
    CountIsPlaces(w, campaign, n, open);
    assert Places(w, campaign, n, all) == set k: nat | k < n && w.contacts[w.order[k]].campaign == campaign;
    assert Places(w, campaign, n, done)
        == set k: nat | k < n && w.contacts[w.order[k]].campaign == campaign && w.contacts[w.order[k]].status == Done;
    assert Places(w, campaign, n, failed)
        == set k: nat | k < n && w.contacts[w.order[k]].campaign == campaign && w.contacts[w.order[k]].status.Ended?;
    assert Places(w, campaign, n, open)
        == set k: nat | k < n && w.contacts[w.order[k]].campaign == campaign
                        && w.contacts[w.order[k]].status in {Pending, Retry, Calling};
  }

  // -------------------------------------------------------------------------------- the report

  function Patched(w: World, call: Id, status: Option<CallStatus>): CallStatus
    requires call in w.calls
  {
    if status.Some? then status.value else w.calls[call].status
  }

  /** A report patches the call and nothing else, unless the call belongs to a campaign, has ended
      and is the last call of some contact. */
  lemma CallOnly(w: World, call: Id, status: Option<CallStatus>, now: Instant)
    requires Listed(w) && call in w.calls
    requires w.calls[call].campaign.None? || !Patched(w, call, status).Finished?
             || forall k :: 0 <= k < |w.order| ==> w.contacts[w.order[k]].lastCall != Some(call)
    ensures UpdateInternalCall(w, call, status, now)
            == w.(calls := w.calls[call := w.calls[call].(status := Patched(w, call, status))])
  {
    var w1 := w.(calls := w.calls[call := w.calls[call].(status := Patched(w, call, status))]);
    assert w.calls[call].(status := w.calls[call].status) == w.calls[call];
    if w.calls[call].campaign.Some? && Patched(w, call, status).Finished? {
      ContactOfFrom(w1, call, 0);
    }
  }

  /** Otherwise the first contact with that call, and no other, changes: it waits for a retry
      exactly after no answer, busy or a failure with attempts left, and else is done when the
      call was answered and ended as the call did when not. Its campaign gets true totals and is
      completed exactly when no contact of it is waiting or being called. */
  lemma ContactEnds(w: World, call: Id, status: Option<CallStatus>, now: Instant, id: Id)
    requires Listed(w) && call in w.calls && w.calls[call].campaign.Some? && Patched(w, call, status).Finished?
    requires FirstWith(w, call, id) && id in w.contacts && w.contacts[id].campaign in w.campaigns
    ensures var w', campaign := UpdateInternalCall(w, call, status, now), w.contacts[id].campaign;
            && Listed(w') && id in w'.contacts && campaign in w'.campaigns && w'.campaigns[campaign].stats.Some?
            && w' == w.(calls := w.calls[call := w.calls[call].(status := Patched(w, call, status))],
                        contacts := w.contacts[id := w'.contacts[id]],
                        campaigns := w.campaigns[campaign := w'.campaigns[campaign]])
            && Ends(w.contacts[id], w'.contacts[id], Patched(w, call, status).how,
                    w.campaigns[campaign].schedule.retry, now)
    ensures var w', campaign := UpdateInternalCall(w, call, status, now), w.contacts[id].campaign;
            var stats := w'.campaigns[campaign].stats.value;
            && Counts(w', campaign, stats)
            && w'.campaigns[campaign]
               == w.campaigns[campaign].(
                    stats := Some(stats),
                    status := if stats.remaining == 0 then Completed else w.campaigns[campaign].status)
  {
    var how, campaign := Patched(w, call, status).how, w.contacts[id].campaign;
    var w1 := w.(calls := w.calls[call := w.calls[call].(status := Patched(w, call, status))]);
    assert w.calls[call].(status := w.calls[call].status) == w.calls[call];
    var i :| IsFirstAt(w, call, i) && w.order[i] == id;
    assert IsFirstAt(w1, call, i);
    ContactOfFirst(w1, call, id);
    SettleEnds(w1, call, how, now, id);
  }

  lemma SettleEnds(w: World, call: Id, how: Outcome, now: Instant, id: Id)
    requires Listed(w) && ContactOf(w, call, 0) == Some(id)
    requires id in w.contacts && w.contacts[id].campaign in w.campaigns
    ensures var w', campaign := Settle(w, call, how, now), w.contacts[id].campaign;
            && Listed(w') && id in w'.contacts && campaign in w'.campaigns && w'.campaigns[campaign].stats.Some?
            && w' == w.(contacts := w.contacts[id := w'.contacts[id]],
                        campaigns := w.campaigns[campaign := w'.campaigns[campaign]])
            && Ends(w.contacts[id], w'.contacts[id], how, w.campaigns[campaign].schedule.retry, now)
    ensures var w', campaign := Settle(w, call, how, now), w.contacts[id].campaign;
            var stats := w'.campaigns[campaign].stats.value;
            && Counts(w', campaign, stats)
            && w'.campaigns[campaign]
               == w.campaigns[campaign].(
                    stats := Some(stats),
                    status := if stats.remaining == 0 then Completed else w.campaigns[campaign].status)
  {
    var c := w.contacts[id];
    var delay := RetryDelay(how, c.attempts, w.campaigns[c.campaign].schedule.retry, now);
    var next := RetryAt(how, c.attempts, w.campaigns[c.campaign].schedule.retry, now);
    var v := WithContact(w, id, if next.Some? then Retry else if how == Answered then Done else Ended(how), next);
    TotalsCount(v, c.campaign);
  }
}
