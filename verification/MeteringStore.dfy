/**
 * The meter as it runs: usage records are updated in place and the tick loops over batches.
 */
module MeteringStore {
  import opened Wrappers
  import opened Rounding
  import opened Metering
  import opened UsageMinutes
  import opened MeteringOutcomes

  class BillingRepository {
    var records: seq<Record>
    var subscriptions: seq<Subscription>
    ghost var ledger: seq<Report>

    ghost function State(): Books
      reads this
    {
      Books(records, subscriptions, ledger)
    }

    constructor (subs: seq<Subscription>)
      ensures State() == Books([], subs, [])
    {
      records, subscriptions, ledger := [], subs, [];
    }

    method FindRecord(call: Id) returns (i: nat)
      ensures i == Find(records, call)
    {
      for k := 0 to |records|
        invariant forall j :: 0 <= j < k ==> records[j].call != call
      {
        if records[k].call == call {
          return k;
        }
      }
      return |records|;
    }

    /** The usage upsert as the SQL statement does it. */
    method UpsertUsage(call: Id, tenant: Id, period: int, seconds: nat, cost: real)
      modifies this`records
      ensures State() == old(State()).(records := SqlUpsert(old(records), call, tenant, period, seconds, cost))
    {
      var i := FindRecord(call);
      if i < |records| {
        records := records[i := records[i].(seconds := seconds, cost := cost)];
      } else {
        records := records + [Record(call, tenant, period, seconds, cost, false)];
      }
    }

    /** The sums over a tenant's month and the calls of its unmarked records. */
    method Tally(tenant: Id, period: int) returns (total: nat, reported: nat, calls: set<Id>)
      ensures total == Sum(records, tenant, period, All)
      ensures reported == Sum(records, tenant, period, Marked)
      ensures calls == Unmarked(records, tenant, period)
    {
      total, reported, calls := 0, 0, {};
      for i := 0 to |records|
        invariant total == Sum(records[..i], tenant, period, All)
        invariant reported == Sum(records[..i], tenant, period, Marked)
        invariant calls == set k | 0 <= k < i && InMonth(records[k], tenant, period) && !records[k].marked
                           :: records[k].call
      {
        assert records[..i + 1][..i] == records[..i];
        var r := records[i];
        if r.tenant == tenant && r.period == period {
          total := total + Minutes(r);
          if r.marked {
            reported := reported + Minutes(r);
          } else {
            calls := calls + {r.call};
          }
        }
      }
      assert records[..|records|] == records;
    }

    method BillingMeterBatches(period: int) returns (batches: seq<Batch>)
      ensures batches == Batches(records, subscriptions, period)
      ensures |batches| == |ActiveOf(subscriptions)|
      ensures forall j :: 0 <= j < |batches| ==> IsBatchOf(batches[j], records, ActiveOf(subscriptions)[j], period)
    {
      BatchesExact(records, subscriptions, period);
      batches := [];
      for i := 0 to |subscriptions|
        invariant batches == Batches(records, subscriptions[..i], period)
      {
        assert subscriptions[..i + 1][..i] == subscriptions[..i];
        var s := subscriptions[i];
        if !s.active {
          continue;
        }
        var total, reported, calls := Tally(s.tenant, period);
        var delta := Over(total, s.included) - Over(reported, s.included);
        batches := batches + [Batch(s.tenant, s.overageItem, s.phoneItem, calls, delta)];
      }
      assert subscriptions[..|subscriptions|] == subscriptions;
    }

    method MarkUsageReported(tenant: Id, calls: set<Id>)
      modifies this`records
      ensures records == Mark(old(records), tenant, calls)
    {
      ghost var before := records;
      for i := 0 to |records|
        invariant |records| == |before| && records[i..] == before[i..]
        invariant forall k :: 0 <= k < i ==> records[k] == Mark(before, tenant, calls)[k]
      {
        assert records[i] == records[i..][0] == before[i];
        if records[i].tenant == tenant && records[i].call in calls {
          records := records[i := records[i].(marked := true)];
        }
        assert records[i + 1..] == before[i..][1..];
      }
    }

    method BillingMeterTick(period: int, answers: nat -> Answer)
      returns (tenants: nat, reported: nat, phones: nat, failed: nat)
      modifies this`records, this`ledger
      ensures (State(), Totals(reported, phones, failed)) == MeterTick(old(State()), period, answers)
      ensures tenants == |Batches(old(records), subscriptions, period)|
    {
      var batches := BillingMeterBatches(period);
      tenants := |batches|;
      reported, phones, failed := ReportBatches(batches, period, answers);
    }

    /** The tick's loop. */
    method ReportBatches(batches: seq<Batch>, period: int, answers: nat -> Answer)
      returns (reported: nat, phones: nat, failed: nat)
      modifies this`records, this`ledger
      ensures (State(), Totals(reported, phones, failed))
              == ReportFrom(old(State()), batches, 0, period, answers, Totals(0, 0, 0))
    {
      ghost var goal := ReportFrom(State(), batches, 0, period, answers, Totals(0, 0, 0));
      reported, phones, failed := 0, 0, 0;
      for k := 0 to |batches|
        invariant ReportFrom(State(), batches, k, period, answers, Totals(reported, phones, failed)) == goal
      {
        var batch := batches[k];
        if batch.delta > 0 {
          if !batch.overageItem {
            failed := failed + 1;
            continue;
          }
          if answers(k).ReportRaises? {
            failed := failed + 1;
            continue;
          }
          ledger := ledger + [Report(batch.tenant, period, batch.delta)];
        }
        MarkUsageReported(batch.tenant, batch.calls);
        reported := reported + |batch.calls|;
        if batch.phoneItem {
          if answers(k).PhoneRaises? {
            failed := failed + 1;
          } else {
            phones := phones + 1;
          }
        }
      }
    }

    /** Minutes, calls, cost, overage minutes and their estimated price. */
    method GetBillingUsage(s: Subscription, period: int)
      returns (minutes: nat, calls: nat, cost: real, overage: nat, cents: nat)
      ensures minutes == StartedIn(records, s.tenant, period, false)
      ensures calls == |MonthOf(records, s.tenant, period)| && cost == Round4(SumCost(records, s.tenant, period))
      ensures overage == Beyond(minutes, s.included) && cents == overage * s.centsPerMinute
    {
      SumIsStarted(records, s.tenant, period);
      CallsAreRecords(records, s.tenant, period);
      var total := 0.0;
      minutes, calls := 0, 0;
      for i := 0 to |records|
        invariant minutes == Sum(records[..i], s.tenant, period, All)
        invariant calls == CountCalls(records[..i], s.tenant, period)
        invariant total == SumCost(records[..i], s.tenant, period)
      {
        var r := records[i];
        assert records[..i + 1][..i] == records[..i];
        if r.tenant == s.tenant && r.period == period {
          minutes, calls, total := minutes + Minutes(r), calls + 1, total + r.cost;
        }
      }
      assert records[..|records|] == records;
      cost := Round4(total);
      overage := Over(minutes, s.included);
      cents := overage * s.centsPerMinute;
    }
  }
}
