/**
 * Which contacts `claim_campaign_contacts` takes: the first due ones, and all of them unless the
 * limit is reached.
 */
module DialerClaims {
  import opened Wrappers
  import opened Campaigns
  import opened Dialer
  import opened DialerSafety

  /** Pending or waiting for a retry that is due, in a running campaign, and not blocked. */
  predicate IsDue(w: World, id: Id, now: Instant)
    requires id in w.contacts
  {
    var c := w.contacts[id];
    && c.campaign in w.campaigns && w.campaigns[c.campaign].status == Running
    && (c.status == Pending || c.status == Retry)
    && (c.nextAttempt == None || c.nextAttempt.value <= now)
    && (c.tenant, c.phone) !in w.doNotCall
  }

  /** The due contacts among the first `i`, in order. */
  function DueIds(w: World, i: nat, now: Instant): seq<Id>
    requires Listed(w) && i <= |w.order|
  {
    if i == 0 then []
    else DueIds(w, i - 1, now) + if IsDue(w, w.order[i - 1], now) then [w.order[i - 1]] else []
  }

  function Ids(claimed: seq<Claim>): seq<Id> {
    seq(|claimed|, j requires 0 <= j < |claimed| => claimed[j].id)
  }

  lemma {:induction false} DueIdsPrefix(w: World, i: nat, n: nat, now: Instant)
    requires Listed(w) && i <= n <= |w.order|
    ensures DueIds(w, i, now) <= DueIds(w, n, now)
  {
    if i < n { DueIdsPrefix(w, i, n - 1, now); }
  }

  /** Nothing was taken yet of what follows, so it is due now exactly when it was. */
  lemma StillDue(w0: World, w: World, claimed: seq<Claim>, i: nat, now: Instant)
    requires Listed(w0) && Claims(w0, w, claimed, now) && NotYet(w, claimed, i) && i < |w.order|
    ensures Listed(w) && (Claimable(w, w.order[i], now) <==> IsDue(w0, w0.order[i], now))
  {
    assert w.contacts[w.order[i]] == w0.contacts[w.order[i]];
  }

  /** The loop at place `i`: the due ones before were taken, fewer than the limit. */
  ghost predicate Taking(w0: World, w: World, i: nat, now: Instant, limit: int, claimed: seq<Claim>) {
    && Listed(w0) && Listed(w) && DistinctOrder(w) && i <= |w.order| && w.order == w0.order
    && Claims(w0, w, claimed, now) && NotYet(w, claimed, i)
    && Ids(claimed) == DueIds(w0, i, now)
  }

  lemma Skips(w0: World, w: World, i: nat, now: Instant, limit: int, claimed: seq<Claim>)
    requires Taking(w0, w, i, now, limit, claimed) && i < |w.order| && !Claimable(w, w.order[i], now)
    ensures Taking(w0, w, i + 1, now, limit, claimed)
  {
    StillDue(w0, w, claimed, i, now);
  }

  lemma Takes(w0: World, w: World, i: nat, now: Instant, limit: int, claimed: seq<Claim>)
    requires Taking(w0, w, i, now, limit, claimed) && i < |w.order| && Claimable(w, w.order[i], now)
    ensures var (w1, item) := ClaimOne(w, w.order[i]); Taking(w0, w1, i + 1, now, limit, claimed + [item])
  {
    StillDue(w0, w, claimed, i, now);
    ClaimOneClaims(w0, w, i, now, claimed);
    IdsSnoc(claimed, ClaimOne(w, w.order[i]).1);
  }

  lemma Stops(w0: World, w: World, i: nat, now: Instant, limit: int, claimed: seq<Claim>)
    requires Taking(w0, w, i, now, limit, claimed) && |claimed| == Max(1, limit)
    ensures var due := DueIds(w0, |w0.order|, now); Ids(claimed) == due[..Min(|due|, Max(1, limit))]
  {
    DueIdsPrefix(w0, i, |w0.order|, now);
    assert |Ids(claimed)| == |claimed|;
  }

  lemma {:induction false} ClaimsFirstFrom(w0: World, w: World, i: nat, now: Instant, limit: int, claimed: seq<Claim>)
    requires Taking(w0, w, i, now, limit, claimed) && |claimed| < Max(1, limit)
    ensures var due := DueIds(w0, |w0.order|, now);
            Ids(ClaimFrom(w, i, now, limit, claimed).1) == due[..Min(|due|, Max(1, limit))]
    decreases |w.order| - i, 1
  {
    if i == |w.order| {
      assert |Ids(claimed)| == |claimed|;
    } else if Claimable(w, w.order[i], now) {
      TakesOn(w0, w, i, now, limit, claimed);
    } else {
      Skips(w0, w, i, now, limit, claimed);
      ClaimsFirstFrom(w0, w, i + 1, now, limit, claimed);
    }
  }

  lemma {:induction false} TakesOn(w0: World, w: World, i: nat, now: Instant, limit: int, claimed: seq<Claim>)
    requires Taking(w0, w, i, now, limit, claimed) && |claimed| < Max(1, limit)
    requires i < |w.order| && Claimable(w, w.order[i], now)
    ensures var due := DueIds(w0, |w0.order|, now);
            Ids(ClaimFrom(w, i, now, limit, claimed).1) == due[..Min(|due|, Max(1, limit))]
    decreases |w.order| - i, 0
  {
    var (w1, item) := ClaimOne(w, w.order[i]);
    Takes(w0, w, i, now, limit, claimed);
    if |claimed| + 1 < limit {
      ClaimsFirstFrom(w0, w1, i + 1, now, limit, claimed + [item]);
    } else {
      Stops(w0, w1, i + 1, now, limit, claimed + [item]);
    }
  }

  lemma IdsSnoc(claimed: seq<Claim>, item: Claim)
    ensures Ids(claimed + [item]) == Ids(claimed) + [item.id]
  {
  }

  /** What is claimed are the first due contacts, in order: all of them, or as many as the limit
      allows, but at least one. */
  lemma ClaimsAreFirst(w: World, now: Instant, limit: int)
    requires Listed(w) && DistinctOrder(w)
    ensures var due := DueIds(w, |w.order|, now);
            Ids(ClaimFrom(w, 0, now, limit, []).1) == due[..Min(|due|, Max(1, limit))]
  {
    ClaimsFirstFrom(w, w, 0, now, limit, []);
  }

  /** So a due contact is left out only when the limit was reached. */
  lemma DueIsClaimed(w: World, now: Instant, limit: int, id: Id)
    requires Listed(w) && DistinctOrder(w) && id in w.order && IsDue(w, id, now)
    ensures var claimed := ClaimFrom(w, 0, now, limit, []).1;
            |claimed| < Max(1, limit) ==> id in Ids(claimed)
  {
    ClaimsAreFirst(w, now, limit);
    var i :| 0 <= i < |w.order| && w.order[i] == id;
    DueIdsPrefix(w, i + 1, |w.order|, now);
    assert DueIds(w, i + 1, now)[|DueIds(w, i, now)|] == id;
  }

  /** A tick claims the first hundred due contacts. */
  lemma TickClaims(zones: Zones, w: World, now: Instant, claimNow: Instant, answers: nat -> Answer)
    requires Listed(w) && DistinctOrder(w)
    ensures var due := DueIds(w, |w.order|, claimNow);
            Ids(Tick(zones, w, now, claimNow, answers).claims) == if |due| <= 100 then due else due[..100]
  {
    ClaimsAreFirst(w, claimNow, CLAIM_LIMIT);
  }
}
