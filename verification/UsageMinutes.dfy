/**
 * What usage is billed for: every started minute of every call of the month.
 */
module UsageMinutes {
  import opened Metering

  /** The least number of minutes that covers the seconds. */
  ghost function StartedMinutes(seconds: nat): (m: nat)
    ensures 60 * m >= seconds && forall k: nat :: 60 * k >= seconds ==> m <= k
  {
    if seconds == 0 then 0 else 1 + StartedMinutes(if seconds > 60 then seconds - 60 else 0)
  }

  /** A started minute counts as a whole one. */
  lemma MinutesStarted(r: Record)
    ensures 60 * (Minutes(r) - 1) < r.seconds <= 60 * Minutes(r)
    ensures Minutes(r) == StartedMinutes(r.seconds)
  {
    var m := Minutes(r);
    assert 60 * m >= r.seconds;
    assert StartedMinutes(r.seconds) <= m;
  }

  /** The started minutes of the tenant's calls of the month; only of marked ones if so asked. */
  ghost function StartedIn(rs: seq<Record>, tenant: Id, period: int, markedOnly: bool): nat {
    if rs == [] then 0
    else
      var r := rs[|rs| - 1];
      StartedIn(rs[..|rs| - 1], tenant, period, markedOnly)
      + if r.tenant == tenant && r.period == period && (r.marked || !markedOnly) then StartedMinutes(r.seconds) else 0
  }

  lemma {:induction false} SumIsStarted(rs: seq<Record>, tenant: Id, period: int)
    ensures Sum(rs, tenant, period, All) == StartedIn(rs, tenant, period, false)
    ensures Sum(rs, tenant, period, Marked) == StartedIn(rs, tenant, period, true)
  {
    if rs != [] {
      SumIsStarted(rs[..|rs| - 1], tenant, period);
      MinutesStarted(rs[|rs| - 1]);
    }
  }

  /** What exceeds the plan. */
  function Beyond(minutes: nat, included: nat): (over: nat)
    ensures over == 0 <==> minutes <= included
    ensures minutes > included ==> included + over == minutes
  {
    if minutes > included then minutes - included else 0
  }

  /** The places of the tenant's records of the month. */
  function MonthOf(rs: seq<Record>, tenant: Id, period: int): set<nat> {
    set i: nat | i < |rs| && rs[i].tenant == tenant && rs[i].period == period
  }

  lemma {:induction false} CallsAreRecords(rs: seq<Record>, tenant: Id, period: int)
    ensures CountCalls(rs, tenant, period) == |MonthOf(rs, tenant, period)|
  {
    if rs != [] {
      var n := |rs| - 1;
      CallsAreRecords(rs[..n], tenant, period);
      MonthNext(rs);
    }
  }

  lemma MonthNext(rs: seq<Record>)
    requires rs != []
    ensures forall tenant, period ::
              |MonthOf(rs, tenant, period)|
              == |MonthOf(rs[..|rs| - 1], tenant, period)|
                 + if rs[|rs| - 1].tenant == tenant && rs[|rs| - 1].period == period then 1 else 0
  {
    var n := |rs| - 1;
    forall tenant, period
      ensures |MonthOf(rs, tenant, period)|
           == |MonthOf(rs[..n], tenant, period)| + if rs[n].tenant == tenant && rs[n].period == period then 1 else 0
    {
      var before, after := MonthOf(rs[..n], tenant, period), MonthOf(rs, tenant, period);
      assert after == before + if n in after then {n} else {};
    }
  }

  /** Costs add up over any cut of the records. */
  lemma {:induction false} CostsAdd(rs: seq<Record>, more: seq<Record>, tenant: Id, period: int)
    ensures SumCost(rs + more, tenant, period) == SumCost(rs, tenant, period) + SumCost(more, tenant, period)
    ensures forall r :: SumCost([r], tenant, period) == if r.tenant == tenant && r.period == period then r.cost else 0.0
  {
    forall r ensures SumCost([r], tenant, period)
                  == if r.tenant == tenant && r.period == period then r.cost else 0.0 {
      assert [r][..0] == [];
    }
    if more == [] {
      assert rs + more == rs;
    } else {
      var n := |more| - 1;
      CostsAdd(rs, more[..n], tenant, period);
      assert (rs + more)[..|rs + more| - 1] == rs + more[..n];
    }
  }
}
