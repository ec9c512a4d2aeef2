/**
 * Usage metering: usage records arrive when calls end, and the meter tick reports overage
 * minutes to Stripe as deltas (apps/api/voiceos_api/repository.py, apps/api/voiceos_api/routes.py).
 */
module Metering {
  import opened Wrappers

  type Id = nat

  /** A usage record. Calls have one record each; `marked` says that it carries a Stripe usage
      record id. A period is a month. */
  datatype Record = Record(call: Id, tenant: Id, period: int, seconds: nat, cost: real, marked: bool)

  /** A tenant's subscription and the facts of its plan the meter uses. */
  datatype Subscription = Subscription(
    tenant: Id, active: bool, included: nat, centsPerMinute: nat, overageItem: bool, phoneItem: bool)

  /** History variable: one entry for each quantity Stripe accepted. */
  datatype Report = Report(tenant: Id, period: int, quantity: nat)

  datatype Books = Books(records: seq<Record>, subscriptions: seq<Subscription>, ledger: seq<Report>)

  function Minutes(r: Record): nat {
    (r.seconds + 59) / 60
  }

  function Over(minutes: int, included: nat): nat {
    if minutes > included then minutes - included else 0
  }

  /** Which minutes of a tenant's month are counted: all of them, or those of marked records. */
  datatype Scope = All | Marked

  function Share(r: Record, tenant: Id, period: int, scope: Scope): nat {
    if r.tenant == tenant && r.period == period && (scope.Marked? ==> r.marked) then Minutes(r) else 0
  }

  function Sum(rs: seq<Record>, tenant: Id, period: int, scope: Scope): nat {
    if rs == [] then 0
    else Sum(rs[..|rs| - 1], tenant, period, scope) + Share(rs[|rs| - 1], tenant, period, scope)
  }

  function Billed(ledger: seq<Report>, tenant: Id, period: int): nat {
    if ledger == [] then 0
    else
      var last := ledger[|ledger| - 1];
      Billed(ledger[..|ledger| - 1], tenant, period)
      + if last.tenant == tenant && last.period == period then last.quantity else 0
  }

  ghost predicate DistinctCalls(rs: seq<Record>) {
    forall i, j :: 0 <= i < j < |rs| ==> rs[i].call != rs[j].call
  }

  ghost predicate DistinctTenants(subs: seq<Subscription>) {
    forall i, j :: 0 <= i < j < |subs| ==> subs[i].tenant != subs[j].tenant
  }

  ghost predicate Valid(b: Books) {
    DistinctCalls(b.records) && DistinctTenants(b.subscriptions)
  }

  // ---------------------------------------------------------------------------------- arrivals

  /** Position of a call's record, or the number of records. */
  function Find(rs: seq<Record>, call: Id): (i: nat)
    ensures i <= |rs| && (i < |rs| ==> rs[i].call == call)
    ensures forall j :: 0 <= j < i ==> rs[j].call != call
  {
    if rs == [] then 0
    else if Find(rs[..|rs| - 1], call) < |rs| - 1 then Find(rs[..|rs| - 1], call)
    else if rs[|rs| - 1].call == call then |rs| - 1
    else |rs|
  }

  /** The SQL upsert of the Postgres store: a second record of a call only replaces its length
      and cost; month, tenant and Stripe marker stay. */
  function SqlUpsert(rs: seq<Record>, call: Id, tenant: Id, period: int, seconds: nat, cost: real): seq<Record> {
    var i := Find(rs, call);
    if i < |rs| then rs[i := rs[i].(seconds := seconds, cost := cost)]
    else rs + [Record(call, tenant, period, seconds, cost, false)]
  }

  /** The in-memory store's upsert: a second record of a call is built anew, without marker. */
  function MemoryUpsert(rs: seq<Record>, call: Id, tenant: Id, period: int, seconds: nat, cost: real): seq<Record> {
    var i := Find(rs, call);
    var r := Record(call, tenant, period, seconds, cost, false);
    if i < |rs| then rs[i := r] else rs + [r]
  }

  // ------------------------------------------------------------------------------------ the tick

  datatype Batch = Batch(tenant: Id, overageItem: bool, phoneItem: bool, calls: set<Id>, delta: int)

  function Unmarked(rs: seq<Record>, tenant: Id, period: int): set<Id> {
    set i | 0 <= i < |rs| && rs[i].tenant == tenant && rs[i].period == period && !rs[i].marked :: rs[i].call
  }

  function BatchOf(rs: seq<Record>, s: Subscription, period: int): Batch {
    Batch(s.tenant, s.overageItem, s.phoneItem, Unmarked(rs, s.tenant, period),
          Over(Sum(rs, s.tenant, period, All), s.included) - Over(Sum(rs, s.tenant, period, Marked), s.included))
  }

  function Batches(rs: seq<Record>, subs: seq<Subscription>, period: int): seq<Batch> {
    if subs == [] then []
    else
      var front := Batches(rs, subs[..|subs| - 1], period);
      var s := subs[|subs| - 1];
      if s.active then front + [BatchOf(rs, s, period)] else front
  }

  function Mark(rs: seq<Record>, tenant: Id, calls: set<Id>): (r: seq<Record>)
    ensures |r| == |rs|
    ensures forall i :: 0 <= i < |rs| ==>
              r[i] == if rs[i].tenant == tenant && rs[i].call in calls then rs[i].(marked := true) else rs[i]
  {
    seq(|rs|, i requires 0 <= i < |rs| =>
      if rs[i].tenant == tenant && rs[i].call in calls then rs[i].(marked := true) else rs[i])
  }

  /** What Stripe does with one tenant's batch: the report or the phone quantity may be refused. */
  datatype Answer = Accepts | ReportRaises | PhoneRaises

  datatype Totals = Totals(reported: nat, phones: nat, failed: nat)

  /** The body of the tick's loop for one batch. */
  function Report1(b: Books, batch: Batch, period: int, answer: Answer, t: Totals): (Books, Totals) {
    if batch.delta > 0 && (!batch.overageItem || answer.ReportRaises?) then (b, t.(failed := t.failed + 1))
    else
      var ledger := if batch.delta > 0 then b.ledger + [Report(batch.tenant, period, batch.delta)] else b.ledger;
      var b1 := b.(records := Mark(b.records, batch.tenant, batch.calls), ledger := ledger);
      var t1 := t.(reported := t.reported + |batch.calls|);
      if !batch.phoneItem then (b1, t1)
      else if answer.PhoneRaises? then (b1, t1.(failed := t1.failed + 1))
      else (b1, t1.(phones := t1.phones + 1))
  }

  function ReportFrom(b: Books, batches: seq<Batch>, k: nat, period: int, answers: nat -> Answer,
                      t: Totals): (Books, Totals)
    requires k <= |batches|
    decreases |batches| - k
  {
    if k == |batches| then (b, t)
    else
      var (b1, t1) := Report1(b, batches[k], period, answers(k), t);
      ReportFrom(b1, batches, k + 1, period, answers, t1)
  }

  /** `billing_meter_tick` up to its alerts: all batches are computed before any is reported. */
  function MeterTick(b: Books, period: int, answers: nat -> Answer): (Books, Totals) {
    ReportFrom(b, Batches(b.records, b.subscriptions, period), 0, period, answers, Totals(0, 0, 0))
  }

  /** `overage_minutes` of `get_billing_usage`. */
  function OverageMinutes(rs: seq<Record>, s: Subscription, period: int): nat {
    Over(Sum(rs, s.tenant, period, All), s.included)
  }

  predicate InMonth(r: Record, tenant: Id, period: int) {
    r.tenant == tenant && r.period == period
  }

  /** The number of calls of `get_billing_usage`. */
  function CountCalls(rs: seq<Record>, tenant: Id, period: int): nat {
    if rs == [] then 0
    else CountCalls(rs[..|rs| - 1], tenant, period) + if InMonth(rs[|rs| - 1], tenant, period) then 1 else 0
  }

  /** Its cost before rounding. */
  function SumCost(rs: seq<Record>, tenant: Id, period: int): real {
    if rs == [] then 0.0
    else
      SumCost(rs[..|rs| - 1], tenant, period)
      + if InMonth(rs[|rs| - 1], tenant, period) then rs[|rs| - 1].cost else 0.0
  }

  // -------------------------------------------------------------------------------------- sums

  lemma {:induction false} SumPointwise(rs: seq<Record>, qs: seq<Record>, tenant: Id, period: int, a: Scope, b: Scope)
    requires |rs| == |qs|
    requires forall i :: 0 <= i < |rs| ==> Share(rs[i], tenant, period, a) == Share(qs[i], tenant, period, b)
    ensures Sum(rs, tenant, period, a) == Sum(qs, tenant, period, b)
  {
    if rs != [] { SumPointwise(rs[..|rs| - 1], qs[..|qs| - 1], tenant, period, a, b); }
  }

  lemma {:induction false} SumReplaced(rs: seq<Record>, i: nat, r: Record, tenant: Id, period: int, scope: Scope)
    requires i < |rs|
    ensures Sum(rs[i := r], tenant, period, scope) + Share(rs[i], tenant, period, scope) ==
            Sum(rs, tenant, period, scope) + Share(r, tenant, period, scope)
  {
    var n := |rs| - 1;
    if i < n {
      SumReplaced(rs[..n], i, r, tenant, period, scope);
      assert rs[i := r][..n] == rs[..n][i := r];
    } else {
      assert rs[i := r][..n] == rs[..n];
    }
  }

  lemma {:induction false} MarkedAtMostAll(rs: seq<Record>, tenant: Id, period: int)
    ensures Sum(rs, tenant, period, Marked) <= Sum(rs, tenant, period, All)
  {
    if rs != [] { MarkedAtMostAll(rs[..|rs| - 1], tenant, period); }
  }

  lemma BilledAppend(ledger: seq<Report>, r: Report, tenant: Id, period: int)
    ensures Billed(ledger + [r], tenant, period) ==
            Billed(ledger, tenant, period) + if r.tenant == tenant && r.period == period then r.quantity else 0
  {
    assert (ledger + [r])[..|ledger|] == ledger;
  }

  /** Marking a tenant's unmarked records of a month marks exactly that month of that tenant. */
  lemma MarkSums(rs: seq<Record>, u: Id, p: int, tenant: Id, period: int)
    requires DistinctCalls(rs)
    ensures var qs := Mark(rs, u, Unmarked(rs, u, p));
            && Sum(qs, tenant, period, All) == Sum(rs, tenant, period, All)
            && Sum(qs, tenant, period, Marked) ==
              Sum(rs, tenant, period, if tenant == u && period == p then All else Marked)
  {
    var calls := Unmarked(rs, u, p);
    var qs := Mark(rs, u, calls);
    SumPointwise(qs, rs, tenant, period, All, All);
    var scope := if tenant == u && period == p then All else Marked;
    forall i | 0 <= i < |rs| ensures Share(qs[i], tenant, period, Marked) == Share(rs[i], tenant, period, scope) {
      assert rs[i].tenant == u && rs[i].period == p && !rs[i].marked ==> rs[i].call in calls;
      if rs[i].tenant == u && rs[i].call in calls {
        var k :| 0 <= k < |rs| && rs[k].tenant == u && rs[k].period == p && !rs[k].marked && rs[k].call == rs[i].call;
        assert k == i;
      }
    }
    SumPointwise(qs, rs, tenant, period, Marked, scope);
  }
}
