/**
 * What one meter tick does to every subscription, told from the books before it and what Stripe
 * answers.
 */
module MeteringOutcomes {
  import opened Metering
  import opened MeteringLaws
  import opened UsageMinutes

  /** The active subscriptions, in order. */
  function ActiveOf(subs: seq<Subscription>): seq<Subscription> {
    if subs == [] then []
    else
      var n := |subs| - 1;
      ActiveOf(subs[..n]) + if subs[n].active then [subs[n]] else []
  }

  lemma {:induction false} ActiveOfAll(subs: seq<Subscription>)
    ensures forall s :: s in ActiveOf(subs) <==> s in subs && s.active
  {
    if subs != [] {
      var n := |subs| - 1;
      ActiveOfAll(subs[..n]);
      assert subs == subs[..n] + [subs[n]];
    }
  }

  /** The overage not yet reported: over all the month's calls, less over the marked ones. */
  ghost function Due(rs: seq<Record>, s: Subscription, period: int): int {
    Beyond(StartedIn(rs, s.tenant, period, false), s.included)
    - Beyond(StartedIn(rs, s.tenant, period, true), s.included)
  }

  ghost predicate IsBatchOf(batch: Batch, rs: seq<Record>, s: Subscription, period: int) {
    && batch.tenant == s.tenant && batch.overageItem == s.overageItem && batch.phoneItem == s.phoneItem
    && batch.delta == Due(rs, s, period)
    && forall call :: call in batch.calls <==>
         exists i :: 0 <= i < |rs| && rs[i].call == call && rs[i].tenant == s.tenant && rs[i].period == period
                     && !rs[i].marked
  }

  /** One batch for every active subscription, in order, with what is due and the calls that are
      not marked yet. */
  lemma {:induction false} BatchesExact(rs: seq<Record>, subs: seq<Subscription>, period: int)
    ensures var batches, active := Batches(rs, subs, period), ActiveOf(subs);
            && |batches| == |active|
            && forall j :: 0 <= j < |active| ==> IsBatchOf(batches[j], rs, active[j], period)
  {
    if subs != [] {
      var n := |subs| - 1;
      BatchesExact(rs, subs[..n], period);
      BatchExact(rs, subs[n], period);
    }
  }

  lemma BatchExact(rs: seq<Record>, s: Subscription, period: int)
    ensures IsBatchOf(BatchOf(rs, s, period), rs, s, period)
  {
    SumIsStarted(rs, s.tenant, period);
  }

  // ------------------------------------------------------------------------------------ the tick

  /** Nothing was to be reported, or there is an item to report it to and Stripe took it. */
  predicate Accepted(batch: Batch, answer: Answer) {
    batch.delta > 0 ==> batch.overageItem && answer != ReportRaises
  }

  /** The record is of this month and of a tenant with an accepted batch among the first `k`. */
  predicate MarkedNow(r: Record, batches: seq<Batch>, k: nat, period: int, answers: nat -> Answer)
    requires k <= |batches|
  {
    r.period == period && exists j: nat :: j < k && batches[j].tenant == r.tenant && Accepted(batches[j], answers(j))
  }

  /** What is reported for the first `k` batches. */
  function Sent(batches: seq<Batch>, k: nat, period: int, answers: nat -> Answer): seq<Report>
    requires k <= |batches|
  {
    if k == 0 then []
    else
      var batch := batches[k - 1];
      Sent(batches, k - 1, period, answers)
      + if batch.delta > 0 && Accepted(batch, answers(k - 1)) then [Report(batch.tenant, period, batch.delta)] else []
  }

  /** How many calls the accepted ones among the first `k` batches hold. */
  function MarkedCalls(batches: seq<Batch>, k: nat, answers: nat -> Answer): nat
    requires k <= |batches|
  {
    if k == 0 then 0
    else
      MarkedCalls(batches, k - 1, answers)
      + if Accepted(batches[k - 1], answers(k - 1)) then |batches[k - 1].calls| else 0
  }

  predicate PhonesAsked(batch: Batch, answer: Answer) {
    Accepted(batch, answer) && batch.phoneItem
  }

  function PhonesOf(batches: seq<Batch>, k: nat, answers: nat -> Answer): set<nat>
    requires k <= |batches|
  {
    set j: nat | j < k && PhonesAsked(batches[j], answers(j)) && answers(j) != PhoneRaises
  }

  function FailuresOf(batches: seq<Batch>, k: nat, answers: nat -> Answer): set<nat>
    requires k <= |batches|
  {
    set j: nat | j < k && (!Accepted(batches[j], answers(j))
                           || (PhonesAsked(batches[j], answers(j)) && answers(j) == PhoneRaises))
  }

  ghost predicate Counted(batches: seq<Batch>, k: nat, answers: nat -> Answer, t: Totals)
    requires k <= |batches|
  {
    && t.reported == MarkedCalls(batches, k, answers)
    && t.phones == |PhonesOf(batches, k, answers)|
    && t.failed == |FailuresOf(batches, k, answers)|
  }

  /** The books after the first `k` batches. */
  ghost predicate Told(b0: Books, b: Books, batches: seq<Batch>, k: nat, period: int, answers: nat -> Answer)
    requires k <= |batches|
  {
    && b.subscriptions == b0.subscriptions && |b.records| == |b0.records|
    && b.ledger == b0.ledger + Sent(batches, k, period, answers)
    && forall i :: 0 <= i < |b0.records| ==>
         var r := b0.records[i];
         b.records[i] == r.(marked := r.marked || MarkedNow(r, batches, k, period, answers))
  }

  /** The batch names exactly the unmarked calls of its tenant's month. */
  ghost predicate NamesUnmarked(rs: seq<Record>, batch: Batch, period: int) {
    forall i :: 0 <= i < |rs| && rs[i].tenant == batch.tenant ==>
      (rs[i].call in batch.calls <==> rs[i].period == period && !rs[i].marked)
  }

  lemma BatchNames(rs: seq<Record>, s: Subscription, batch: Batch, period: int)
    requires DistinctCalls(rs) && IsBatchOf(batch, rs, s, period)
    ensures NamesUnmarked(rs, batch, period)
  {
    forall i | 0 <= i < |rs| && rs[i].tenant == batch.tenant
      ensures rs[i].call in batch.calls <==> rs[i].period == period && !rs[i].marked
    {
      if rs[i].call in batch.calls {
        var k :| 0 <= k < |rs| && rs[k].call == rs[i].call && rs[k].tenant == s.tenant && rs[k].period == period
                 && !rs[k].marked;
        assert k == i;
      }
    }
  }

  lemma MarkedMore(b0: Books, b: Books, batches: seq<Batch>, k: nat, period: int, answers: nat -> Answer)
    requires k < |batches| && Told(b0, b, batches, k, period, answers) && NamesUnmarked(b0.records, batches[k], period)
    requires Accepted(batches[k], answers(k))
    ensures var rs := Mark(b.records, batches[k].tenant, batches[k].calls);
            forall i :: 0 <= i < |b0.records| ==>
              var r := b0.records[i]; rs[i] == r.(marked := r.marked || MarkedNow(r, batches, k + 1, period, answers))
  {
  }

  lemma RefusedMore(r: Record, batches: seq<Batch>, k: nat, period: int, answers: nat -> Answer)
    requires k < |batches| && !Accepted(batches[k], answers(k))
    ensures MarkedNow(r, batches, k + 1, period, answers) == MarkedNow(r, batches, k, period, answers)
  {
  }

  lemma ToldMore(b0: Books, b: Books, batches: seq<Batch>, k: nat, period: int, answers: nat -> Answer, t: Totals)
    requires k < |batches| && Told(b0, b, batches, k, period, answers) && NamesUnmarked(b0.records, batches[k], period)
    ensures Told(b0, Report1(b, batches[k], period, answers(k), t).0, batches, k + 1, period, answers)
  {
    if Accepted(batches[k], answers(k)) {
      MarkedMore(b0, b, batches, k, period, answers);
    } else {
      forall r ensures MarkedNow(r, batches, k + 1, period, answers) == MarkedNow(r, batches, k, period, answers) {
        RefusedMore(r, batches, k, period, answers);
      }
    }
  }

  lemma CountedMore(b: Books, batches: seq<Batch>, k: nat, period: int, answers: nat -> Answer, t: Totals)
    requires k < |batches| && Counted(batches, k, answers, t)
    ensures Counted(batches, k + 1, answers, Report1(b, batches[k], period, answers(k), t).1)
  {
    PhonesMore(batches, k, answers);
    FailuresMore(batches, k, answers);
  }

  lemma PhonesMore(batches: seq<Batch>, k: nat, answers: nat -> Answer)
    requires k < |batches|
    ensures |PhonesOf(batches, k + 1, answers)|
            == |PhonesOf(batches, k, answers)|
               + if PhonesAsked(batches[k], answers(k)) && answers(k) != PhoneRaises then 1 else 0
  {
    var before, after := PhonesOf(batches, k, answers), PhonesOf(batches, k + 1, answers);
    assert after == before + if k in after then {k} else {};
  }

  lemma FailuresMore(batches: seq<Batch>, k: nat, answers: nat -> Answer)
    requires k < |batches|
    ensures |FailuresOf(batches, k + 1, answers)|
            == |FailuresOf(batches, k, answers)| + if k in FailuresOf(batches, k + 1, answers) then 1 else 0
  {
    var before, after := FailuresOf(batches, k, answers), FailuresOf(batches, k + 1, answers);
    assert after == before + if k in after then {k} else {};
  }

  lemma {:induction false} ReportsTold(
    b0: Books, b: Books, batches: seq<Batch>, k: nat, period: int, answers: nat -> Answer, t: Totals)
    requires k <= |batches| && Told(b0, b, batches, k, period, answers) && Counted(batches, k, answers, t)
    requires forall j :: 0 <= j < |batches| ==> NamesUnmarked(b0.records, batches[j], period)
    ensures var (b', t') := ReportFrom(b, batches, k, period, answers, t);
            Told(b0, b', batches, |batches|, period, answers) && Counted(batches, |batches|, answers, t')
    decreases |batches| - k
  {
    if k < |batches| {
      var (b1, t1) := Report1(b, batches[k], period, answers(k), t);
      ToldMore(b0, b, batches, k, period, answers, t);
      CountedMore(b, batches, k, period, answers, t);
      ReportsTold(b0, b1, batches, k + 1, period, answers, t1);
    }
  }

  /** The whole tick: with one batch for every active subscription, exactly this month's records of
      tenants with an accepted batch get the marker, exactly the positive deltas of accepted
      batches are reported, in order, and the totals count the marked calls, the phone quantities
      that were set, and the refused batches and phone quantities. */
  lemma MeterTickOutcomes(b: Books, period: int, answers: nat -> Answer)
    requires DistinctCalls(b.records)
    ensures var batches, active := Batches(b.records, b.subscriptions, period), ActiveOf(b.subscriptions);
            var (b', t) := MeterTick(b, period, answers);
            && |batches| == |active|
            && (forall j :: 0 <= j < |active| ==> IsBatchOf(batches[j], b.records, active[j], period))
            && Told(b, b', batches, |batches|, period, answers)
            && Counted(batches, |batches|, answers, t)
  {
    var batches, active := Batches(b.records, b.subscriptions, period), ActiveOf(b.subscriptions);
    BatchesExact(b.records, b.subscriptions, period);
    forall j | 0 <= j < |batches| ensures NamesUnmarked(b.records, batches[j], period) {
      BatchNames(b.records, active[j], batches[j], period);
    }
    ReportsTold(b, b, batches, 0, period, answers, Totals(0, 0, 0));
  }

  /** A tick whose reports are all accepted bills every active tenant the started minutes of all
      its calls of the month, beyond the plan. */
  lemma TickBillsStarted(b: Books, period: int, answers: nat -> Answer, i: nat)
    requires Valid(b) && Conserved(b) && i < |b.subscriptions|
    requires b.subscriptions[i].active && b.subscriptions[i].overageItem
    requires forall k: nat :: answers(k) != ReportRaises
    ensures var s := b.subscriptions[i];
            Billed(MeterTick(b, period, answers).0.ledger, s.tenant, period)
            == Beyond(StartedIn(b.records, s.tenant, period, false), s.included)
  {
    var s, b' := b.subscriptions[i], MeterTick(b, period, answers).0;
    TickSettles(b, period, answers, i);
    MeterTickOutcomes(b, period, answers);
    SumPointwise(b'.records, b.records, s.tenant, period, All, All);
    SumIsStarted(b.records, s.tenant, period);
  }

  /** A call's first usage is a new record without marker. A later one replaces, over Postgres,
      the length and the cost of that record; in memory, the whole record and so its marker. */
  lemma UpsertEffects(rs: seq<Record>, call: Id, tenant: Id, period: int, seconds: nat, cost: real)
    requires DistinctCalls(rs)
    ensures var r := Record(call, tenant, period, seconds, cost, false);
            var sql := SqlUpsert(rs, call, tenant, period, seconds, cost);
            var memory := MemoryUpsert(rs, call, tenant, period, seconds, cost);
            && ((forall i :: 0 <= i < |rs| ==> rs[i].call != call) ==> sql == memory == rs + [r])
            && forall i :: 0 <= i < |rs| && rs[i].call == call ==>
                 sql == rs[i := rs[i].(seconds := seconds, cost := cost)] && memory == rs[i := r]
  {
  }
}
