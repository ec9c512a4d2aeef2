/**
 * Conservation of billed minutes: what Stripe was told is the overage of what is marked.
 */
module MeteringLaws {
  import opened Wrappers
  import opened Metering
  import opened UsageMinutes

  ghost predicate Law(b: Books, s: Subscription, period: int) {
    Billed(b.ledger, s.tenant, period) == Over(Sum(b.records, s.tenant, period, Marked), s.included)
  }

  /** The conservation law, for every subscription and every month. */
  ghost predicate Conserved(b: Books) {
    forall i, period :: 0 <= i < |b.subscriptions| ==> Law(b, b.subscriptions[i], period)
  }

  lemma DeltaNotNegative(rs: seq<Record>, s: Subscription, period: int)
    ensures BatchOf(rs, s, period).delta >= 0
  {
    MarkedAtMostAll(rs, s.tenant, period);
  }

  // ------------------------------------------------------------------------------------ ticks

  /** The batch is the one of some subscription over these records. */
  ghost predicate IsBatch(rs: seq<Record>, subs: seq<Subscription>, batch: Batch, period: int) {
    exists i :: 0 <= i < |subs| && batch == BatchOf(rs, subs[i], period)
  }

  lemma {:induction false} BatchesAre(rs: seq<Record>, subs: seq<Subscription>, period: int, bs: seq<Batch>)
    requires DistinctTenants(subs) && bs == Batches(rs, subs, period)
    ensures forall j :: 0 <= j < |bs| ==> IsBatch(rs, subs, bs[j], period)
    ensures forall j, k :: 0 <= j < k < |bs| ==> bs[j].tenant != bs[k].tenant
    ensures forall i :: 0 <= i < |subs| && subs[i].active ==> BatchOf(rs, subs[i], period) in bs
  {
    if subs != [] {
      var front, last := subs[..|subs| - 1], subs[|subs| - 1];
      var fs := Batches(rs, front, period);
      BatchesAre(rs, front, period, fs);
      forall j | 0 <= j < |fs| ensures IsBatch(rs, subs, fs[j], period) && fs[j].tenant != last.tenant {
        assert IsBatch(rs, front, fs[j], period);
        var i :| 0 <= i < |front| && fs[j] == BatchOf(rs, front[i], period);
        assert subs[i] == front[i];
      }
      assert IsBatch(rs, subs, BatchOf(rs, last, period), period);
      forall i | 0 <= i < |subs| && subs[i].active ensures BatchOf(rs, subs[i], period) in bs {
        if i < |front| { assert front[i] == subs[i]; }
      }
    }
  }

  /** A batch that was computed for a subscription and is still up to date. */
  ghost predicate UpToDate(b: Books, batch: Batch, period: int) {
    IsBatch(b.records, b.subscriptions, batch, period)
  }

  /** The law of subscription `s` in month `p` after the batch of subscription `u` was reported. */
  lemma ReportedLaw(b: Books, u: Subscription, period: int, s: Subscription, p: int)
    requires DistinctCalls(b.records) && Law(b, s, p) && (s.tenant == u.tenant ==> s == u)
    ensures var batch := BatchOf(b.records, u, period);
            && batch.delta >= 0
            && var ledger := if batch.delta > 0 then b.ledger + [Report(u.tenant, period, batch.delta)] else b.ledger;
            Law(b.(records := Mark(b.records, u.tenant, batch.calls), ledger := ledger), s, p)
  {
    var batch := BatchOf(b.records, u, period);
    DeltaNotNegative(b.records, u, period);
    MarkSums(b.records, u.tenant, period, s.tenant, p);
    if batch.delta > 0 { BilledAppend(b.ledger, Report(u.tenant, period, batch.delta), s.tenant, p); }
  }

  lemma Report1Conserves(b: Books, batch: Batch, period: int, answer: Answer, t: Totals)
    requires Valid(b) && Conserved(b) && UpToDate(b, batch, period)
    ensures var b1 := Report1(b, batch, period, answer, t).0;
            Valid(b1) && Conserved(b1) && b1.subscriptions == b.subscriptions
  {
    var i :| 0 <= i < |b.subscriptions| && batch == BatchOf(b.records, b.subscriptions[i], period);
    var b1 := Report1(b, batch, period, answer, t).0;
    if b1 != b {
      forall j, p | 0 <= j < |b1.subscriptions| ensures Law(b1, b1.subscriptions[j], p) {
        assert Law(b, b.subscriptions[j], p);
        ReportedLaw(b, b.subscriptions[i], period, b.subscriptions[j], p);
      }
    }
  }

  lemma MarkKeepsOthers(rs: seq<Record>, u: Id, calls: set<Id>, tenant: Id, period: int)
    requires u != tenant
    ensures Unmarked(Mark(rs, u, calls), tenant, period) == Unmarked(rs, tenant, period)
  {
    var qs := Mark(rs, u, calls);
    assert forall k :: 0 <= k < |rs| && rs[k].tenant == tenant ==> qs[k] == rs[k];
    forall c | c in Unmarked(rs, tenant, period) ensures c in Unmarked(qs, tenant, period) {
      var k :| 0 <= k < |rs| && rs[k].tenant == tenant && rs[k].period == period && !rs[k].marked && rs[k].call == c;
      assert qs[k] == rs[k];
    }
    MarkShrinks(rs, u, calls, tenant, period);
  }

  /** Reporting one tenant's batch does not touch the batch of another. */
  lemma Report1KeepsBatch(b: Books, batch: Batch, other: Batch, period: int, answer: Answer, t: Totals)
    requires Valid(b) && UpToDate(b, batch, period) && UpToDate(b, other, period) && other.tenant != batch.tenant
    ensures UpToDate(Report1(b, batch, period, answer, t).0, other, period)
  {
    var i :| 0 <= i < |b.subscriptions| && other == BatchOf(b.records, b.subscriptions[i], period);
    var s := b.subscriptions[i];
    var b1 := Report1(b, batch, period, answer, t).0;
    if b1.records != b.records {
      MarkSums(b.records, batch.tenant, period, s.tenant, period);
      MarkKeepsOthers(b.records, batch.tenant, batch.calls, s.tenant, period);
      assert BatchOf(b1.records, s, period) == other;
    }
    assert b1.subscriptions[i] == s;
  }

  lemma {:induction false} ReportFromConserves(b: Books, batches: seq<Batch>, k: nat, period: int,
                                               answers: nat -> Answer, t: Totals)
    requires Valid(b) && Conserved(b) && k <= |batches|
    requires forall j :: k <= j < |batches| ==> UpToDate(b, batches[j], period)
    requires forall i, j :: 0 <= i < j < |batches| ==> batches[i].tenant != batches[j].tenant
    ensures var b' := ReportFrom(b, batches, k, period, answers, t).0; Valid(b') && Conserved(b')
    decreases |batches| - k
  {
    if k < |batches| {
      var (b1, t1) := Report1(b, batches[k], period, answers(k), t);
      Report1Conserves(b, batches[k], period, answers(k), t);
      forall j | k + 1 <= j < |batches| ensures UpToDate(b1, batches[j], period) {
        Report1KeepsBatch(b, batches[k], batches[j], period, answers(k), t);
      }
      ReportFromConserves(b1, batches, k + 1, period, answers, t1);
    }
  }

  /** A tick keeps the conservation law, whichever reports Stripe refuses. */
  lemma TickConserves(b: Books, period: int, answers: nat -> Answer)
    requires Valid(b) && Conserved(b)
    ensures var b' := MeterTick(b, period, answers).0; Valid(b') && Conserved(b')
  {
    var bs := Batches(b.records, b.subscriptions, period);
    BatchesAre(b.records, b.subscriptions, period, bs);
    assert forall j :: 0 <= j < |bs| ==> UpToDate(b, bs[j], period);
    ReportFromConserves(b, bs, 0, period, answers, Totals(0, 0, 0));
  }

  /** With nothing left to mark, the billed minutes are the overage the tenant is shown. */
  lemma MarkedIsBilled(b: Books, i: nat, period: int)
    requires Conserved(b) && i < |b.subscriptions|
    requires Unmarked(b.records, b.subscriptions[i].tenant, period) == {}
    ensures Billed(b.ledger, b.subscriptions[i].tenant, period) == OverageMinutes(b.records, b.subscriptions[i], period)
  {
    var s, rs := b.subscriptions[i], b.records;
    assert Law(b, s, period);
    forall k | 0 <= k < |rs| ensures Share(rs[k], s.tenant, period, Marked) == Share(rs[k], s.tenant, period, All) {
      assert rs[k].call !in Unmarked(rs, s.tenant, period);
    }
    SumPointwise(rs, rs, s.tenant, period, Marked, All);
  }

  lemma MarkShrinks(rs: seq<Record>, u: Id, calls: set<Id>, tenant: Id, period: int)
    ensures Unmarked(Mark(rs, u, calls), tenant, period) <= Unmarked(rs, tenant, period)
  {
    var qs := Mark(rs, u, calls);
    forall c | c in Unmarked(qs, tenant, period) ensures c in Unmarked(rs, tenant, period) {
      var k :| 0 <= k < |qs| && qs[k].tenant == tenant && qs[k].period == period && !qs[k].marked && qs[k].call == c;
      assert qs[k] == rs[k];
    }
  }

  lemma {:induction false} ReportFromShrinks(
    b: Books, batches: seq<Batch>, k: nat, period: int, answers: nat -> Answer, t: Totals, tenant: Id)
    requires k <= |batches|
    ensures Unmarked(ReportFrom(b, batches, k, period, answers, t).0.records, tenant, period) <=
            Unmarked(b.records, tenant, period)
    decreases |batches| - k
  {
    if k < |batches| {
      var (b1, t1) := Report1(b, batches[k], period, answers(k), t);
      MarkShrinks(b.records, batches[k].tenant, batches[k].calls, tenant, period);
      ReportFromShrinks(b1, batches, k + 1, period, answers, t1, tenant);
    }
  }

  lemma MarkEmpties(rs: seq<Record>, tenant: Id, period: int)
    ensures Unmarked(Mark(rs, tenant, Unmarked(rs, tenant, period)), tenant, period) == {}
  {
    var calls := Unmarked(rs, tenant, period);
    var qs := Mark(rs, tenant, calls);
    forall k | 0 <= k < |qs| ensures qs[k].tenant == tenant && qs[k].period == period ==> qs[k].marked {
      assert rs[k].tenant == tenant && rs[k].period == period && !rs[k].marked ==> rs[k].call in calls;
    }
  }

  lemma {:induction false} ReportFromSettles(
    b: Books, batches: seq<Batch>, k: nat, period: int, answers: nat -> Answer, t: Totals, j: nat)
    requires Valid(b) && Conserved(b) && k <= j < |batches|
    requires forall i :: k <= i < |batches| ==> UpToDate(b, batches[i], period)
    requires forall i, l :: 0 <= i < l < |batches| ==> batches[i].tenant != batches[l].tenant
    requires !answers(j).ReportRaises? && batches[j].overageItem
    ensures Unmarked(ReportFrom(b, batches, k, period, answers, t).0.records, batches[j].tenant, period) == {}
    decreases |batches| - k
  {
    var (b1, t1) := Report1(b, batches[k], period, answers(k), t);
    if j == k {
      MarkEmpties(b.records, batches[j].tenant, period);
      ReportFromShrinks(b1, batches, k + 1, period, answers, t1, batches[j].tenant);
    } else {
      Report1Conserves(b, batches[k], period, answers(k), t);
      forall i | k + 1 <= i < |batches| ensures UpToDate(b1, batches[i], period) {
        Report1KeepsBatch(b, batches[k], batches[i], period, answers(k), t);
      }
      ReportFromSettles(b1, batches, k + 1, period, answers, t1, j);
    }
  }

  /** A tick in which Stripe accepts every report bills each active tenant's overage in full. */
  lemma TickSettles(b: Books, period: int, answers: nat -> Answer, i: nat)
    requires Valid(b) && Conserved(b) && i < |b.subscriptions| && b.subscriptions[i].active
    requires b.subscriptions[i].overageItem
    requires forall k: nat :: answers(k) != ReportRaises
    ensures var s := b.subscriptions[i]; var b' := MeterTick(b, period, answers).0;
            && Unmarked(b'.records, s.tenant, period) == {}
            && Billed(b'.ledger, s.tenant, period) == OverageMinutes(b'.records, s, period)
  {
    var s, bs := b.subscriptions[i], Batches(b.records, b.subscriptions, period);
    BatchesAre(b.records, b.subscriptions, period, bs);
    assert forall j :: 0 <= j < |bs| ==> UpToDate(b, bs[j], period);
    var j :| 0 <= j < |bs| && bs[j] == BatchOf(b.records, s, period);
    ReportFromSettles(b, bs, 0, period, answers, Totals(0, 0, 0), j);
    TickConserves(b, period, answers);
    ReportFromKeepsPlans(b, bs, 0, period, answers, Totals(0, 0, 0));
    MarkedIsBilled(MeterTick(b, period, answers).0, i, period);
  }

  lemma {:induction false} ReportFromKeepsPlans(b: Books, batches: seq<Batch>, k: nat, period: int,
                                                answers: nat -> Answer, t: Totals)
    requires k <= |batches|
    ensures ReportFrom(b, batches, k, period, answers, t).0.subscriptions == b.subscriptions
    decreases |batches| - k
  {
    if k < |batches| {
      var (b1, t1) := Report1(b, batches[k], period, answers(k), t);
      ReportFromKeepsPlans(b1, batches, k + 1, period, answers, t1);
    }
  }

  // --------------------------------------------------------------------------------- arrivals

  /** The law of one tenant's month after a marked record of it changes from `was` to `becomes`. */
  predicate KeepsOver(before: int, was: int, becomes: int, included: nat) {
    becomes == was || (before <= included && before - was + becomes <= included)
  }

  /** What a caller can check before the SQL upsert: a record not yet marked is free; a marked one
      must keep its minutes, unless the month's marked minutes are within the plan before and
      after. */
  ghost predicate SafeSql(b: Books, call: Id, seconds: nat) {
    var i := Find(b.records, call);
    i < |b.records| && b.records[i].marked ==>
      var r := b.records[i];
      forall k :: 0 <= k < |b.subscriptions| && b.subscriptions[k].tenant == r.tenant ==>
        KeepsOver(Sum(b.records, r.tenant, r.period, Marked), Minutes(r), Minutes(r.(seconds := seconds)),
                  b.subscriptions[k].included)
  }

  /** The same for the in-memory upsert: a marked record must have no minutes or leave the month's
      marked minutes within the plan. */
  ghost predicate SafeMemory(b: Books, call: Id) {
    var i := Find(b.records, call);
    i < |b.records| && b.records[i].marked ==>
      var r := b.records[i];
      forall k :: 0 <= k < |b.subscriptions| && b.subscriptions[k].tenant == r.tenant ==>
        Minutes(r) == 0 || Sum(b.records, r.tenant, r.period, Marked) <= b.subscriptions[k].included
  }

  lemma SumAppended(rs: seq<Record>, r: Record, tenant: Id, period: int, scope: Scope)
    ensures Sum(rs + [r], tenant, period, scope) == Sum(rs, tenant, period, scope) + Share(r, tenant, period, scope)
  {
    assert (rs + [r])[..|rs|] == rs;
  }

  lemma DistinctKept(rs: seq<Record>, call: Id, r: Record)
    requires DistinctCalls(rs) && r.call == call
    ensures var i := Find(rs, call); DistinctCalls(if i < |rs| then rs[i := r] else rs + [r])
  {
  }

  /** Replacing record `i` moves the marked minutes of its own tenant's month only. */
  lemma ReplaceMoves(b: Books, i: nat, r: Record, s: Subscription, period: int)
    requires i < |b.records|
    ensures Sum(b.records[i := r], s.tenant, period, Marked) ==
            Sum(b.records, s.tenant, period, Marked) - Share(b.records[i], s.tenant, period, Marked)
              + Share(r, s.tenant, period, Marked)
  {
    SumReplaced(b.records, i, r, s.tenant, period, Marked);
  }

  /** Replacing record `i` by `r` leaves the billed overage of this tenant's month right. */
  ghost predicate StaysBilled(b: Books, i: nat, r: Record, s: Subscription, p: int)
    requires i < |b.records|
  {
    Over(Sum(b.records, s.tenant, p, Marked), s.included) ==
    Over(Sum(b.records, s.tenant, p, Marked) - Share(b.records[i], s.tenant, p, Marked) + Share(r, s.tenant, p, Marked),
         s.included)
  }

  lemma ReplacedLaws(b: Books, i: nat, r: Record)
    requires Conserved(b) && i < |b.records|
    ensures forall k, p :: 0 <= k < |b.subscriptions| ==>
              (Law(b.(records := b.records[i := r]), b.subscriptions[k], p) <==>
                StaysBilled(b, i, r, b.subscriptions[k], p))
  {
    forall k, p | 0 <= k < |b.subscriptions|
      ensures Law(b.(records := b.records[i := r]), b.subscriptions[k], p) <==>
                StaysBilled(b, i, r, b.subscriptions[k], p)
    {
      assert Law(b, b.subscriptions[k], p);
      ReplaceMoves(b, i, r, b.subscriptions[k], p);
    }
  }

  lemma AppendedConserves(b: Books, r: Record)
    requires Conserved(b) && !r.marked
    ensures Conserved(b.(records := b.records + [r]))
  {
    var b' := b.(records := b.records + [r]);
    forall k, p | 0 <= k < |b.subscriptions| ensures Law(b', b'.subscriptions[k], p) {
      assert Law(b, b.subscriptions[k], p);
      SumAppended(b.records, r, b.subscriptions[k].tenant, p, Marked);
    }
  }

  /** The SQL upsert keeps the conservation law exactly when it is safe. */
  lemma SqlUpsertExact(b: Books, call: Id, tenant: Id, period: int, seconds: nat, cost: real)
    requires Valid(b) && Conserved(b)
    ensures var b' := b.(records := SqlUpsert(b.records, call, tenant, period, seconds, cost));
            Valid(b') && (Conserved(b') <==> SafeSql(b, call, seconds))
  {
    var rs, i := b.records, Find(b.records, call);
    if i == |rs| {
      var r := Record(call, tenant, period, seconds, cost, false);
      DistinctKept(rs, call, r);
      AppendedConserves(b, r);
    } else {
      var r := rs[i].(seconds := seconds, cost := cost);
      DistinctKept(rs, call, r);
      ReplacedLaws(b, i, r);
      ExactFor(b, b.(records := rs[i := r]), i, r);
    }
  }

  /** The law after a replacement, read off the one tenant's month it concerns. */
  lemma ExactFor(b: Books, b': Books, i: nat, r: Record)
    requires i < |b.records| && b'.subscriptions == b.subscriptions
    requires forall k, p :: 0 <= k < |b.subscriptions| ==>
               (Law(b', b.subscriptions[k], p) <==> StaysBilled(b, i, r, b.subscriptions[k], p))
    requires r == b.records[i].(seconds := r.seconds, cost := r.cost) || !r.marked
    ensures b.records[i].marked && r.marked ==>
              (Conserved(b') <==> forall k :: 0 <= k < |b.subscriptions| && b.subscriptions[k].tenant == r.tenant ==>
                KeepsOver(Sum(b.records, r.tenant, r.period, Marked), Minutes(b.records[i]), Minutes(r),
                          b.subscriptions[k].included))
    ensures b.records[i].marked && !r.marked ==>
              (Conserved(b') <==>
               forall k :: 0 <= k < |b.subscriptions| && b.subscriptions[k].tenant == b.records[i].tenant ==>
                 Minutes(b.records[i]) == 0 ||
                 Sum(b.records, b.records[i].tenant, b.records[i].period, Marked) <= b.subscriptions[k].included)
    ensures !b.records[i].marked && !r.marked ==> Conserved(b')
  {
    var former := b.records[i];
    ShareCounted(b.records, i);
    forall k | 0 <= k < |b.subscriptions| && b.subscriptions[k].tenant == former.tenant && Conserved(b')
      ensures Law(b', b'.subscriptions[k], former.period)
    {
    }
  }

  /** A marked record's minutes are among its month's marked minutes. */
  lemma ShareCounted(rs: seq<Record>, i: nat)
    requires i < |rs|
    ensures rs[i].marked ==> Minutes(rs[i]) <= Sum(rs, rs[i].tenant, rs[i].period, Marked)
  {
    SumReplaced(rs, i, rs[i].(marked := false), rs[i].tenant, rs[i].period, Marked);
  }

  /** The in-memory upsert keeps the conservation law exactly when it is safe. */
  lemma MemoryUpsertExact(b: Books, call: Id, tenant: Id, period: int, seconds: nat, cost: real)
    requires Valid(b) && Conserved(b)
    ensures var b' := b.(records := MemoryUpsert(b.records, call, tenant, period, seconds, cost));
            Valid(b') && (Conserved(b') <==> SafeMemory(b, call))
  {
    var rs, i := b.records, Find(b.records, call);
    var r := Record(call, tenant, period, seconds, cost, false);
    DistinctKept(rs, call, r);
    if i == |rs| {
      AppendedConserves(b, r);
    } else {
      ReplacedLaws(b, i, r);
      ExactFor(b, b.(records := rs[i := r]), i, r);
    }
  }

  // ------------------------------------------------------------------------------------- runs

  datatype Event =
    | Arrives(call: Id, tenant: Id, month: int, seconds: nat, cost: real)
    | Ticks(period: int, answers: nat -> Answer)

  function Next(b: Books, e: Event): Books {
    match e
    case Arrives(call, tenant, month, seconds, cost) =>
      b.(records := SqlUpsert(b.records, call, tenant, month, seconds, cost))
    case Ticks(period, answers) => MeterTick(b, period, answers).0
  }

  function Run(b: Books, events: seq<Event>): Books {
    if events == [] then b else Next(Run(b, events[..|events| - 1]), events[|events| - 1])
  }

  /** Every arrival of the run is safe in the state it meets. */
  ghost predicate SafeRun(b: Books, events: seq<Event>) {
    events != [] ==>
      var front, e := events[..|events| - 1], events[|events| - 1];
      SafeRun(b, front) && (e.Arrives? ==> SafeSql(Run(b, front), e.call, e.seconds))
  }

  /** Billing conservation over whole runs: after any sequence of usage arrivals and of ticks,
      refused or not, Stripe was told exactly the overage of what is marked. */
  lemma {:induction false} RunConserves(b: Books, events: seq<Event>)
    requires Valid(b) && Conserved(b) && SafeRun(b, events)
    ensures Valid(Run(b, events)) && Conserved(Run(b, events))
  {
    if events != [] {
      var front, e := events[..|events| - 1], events[|events| - 1];
      RunConserves(b, front);
      match e
      case Arrives(call, tenant, month, seconds, cost) =>
        SqlUpsertExact(Run(b, front), call, tenant, month, seconds, cost);
      case Ticks(period, answers) => TickConserves(Run(b, front), period, answers);
    }
  }

  ghost predicate AlwaysConserved(b: Books, events: seq<Event>) {
    Conserved(Run(b, events)) && (events != [] ==> AlwaysConserved(b, events[..|events| - 1]))
  }

  /** The law holds all along a run exactly when every arrival of it is safe. */
  lemma {:induction false} RunExact(b: Books, events: seq<Event>)
    requires Valid(b) && Conserved(b)
    ensures AlwaysConserved(b, events) <==> SafeRun(b, events)
  {
    if events != [] {
      var front, e := events[..|events| - 1], events[|events| - 1];
      RunExact(b, front);
      if SafeRun(b, front) {
        RunConserves(b, front);
        match e
        case Arrives(call, tenant, month, seconds, cost) =>
          SqlUpsertExact(Run(b, front), call, tenant, month, seconds, cost);
        case Ticks(period, answers) => TickConserves(Run(b, front), period, answers);
      }
    }
  }

  /** Every record has the length its call is known to have. */
  ghost predicate Lengths(rs: seq<Record>, length: Id -> nat) {
    forall i :: 0 <= i < |rs| ==> rs[i].seconds == length(rs[i].call)
  }

  lemma {:induction false} ReportFromKeepsLengths(
      b: Books, batches: seq<Batch>, k: nat, period: int, answers: nat -> Answer, t: Totals, length: Id -> nat)
    requires k <= |batches| && Lengths(b.records, length)
    ensures Lengths(ReportFrom(b, batches, k, period, answers, t).0.records, length)
    decreases |batches| - k
  {
    if k < |batches| {
      var (b1, t1) := Report1(b, batches[k], period, answers(k), t);
      ReportFromKeepsLengths(b1, batches, k + 1, period, answers, t1, length);
    }
  }

  lemma {:induction false} RepeatsAreSafe(b: Books, events: seq<Event>, length: Id -> nat)
    requires Lengths(b.records, length)
    requires forall e :: e in events && e.Arrives? ==> e.seconds == length(e.call)
    ensures SafeRun(b, events) && Lengths(Run(b, events).records, length)
  {
    if events != [] {
      var front, e := events[..|events| - 1], events[|events| - 1];
      RepeatsAreSafe(b, front, length);
      var b1 := Run(b, front);
      if e.Ticks? {
        var batches := Batches(b1.records, b1.subscriptions, e.period);
        ReportFromKeepsLengths(b1, batches, 0, e.period, e.answers, Totals(0, 0, 0), length);
      }
    }
  }

  /** From empty books, reporting a call's end any number of times, always with the call's own
      length, keeps the law; so do ticks, refused or not, at any moment in between. */
  lemma RepeatedReportsConserve(subs: seq<Subscription>, events: seq<Event>, length: Id -> nat)
    requires DistinctTenants(subs)
    requires forall e :: e in events && e.Arrives? ==> e.seconds == length(e.call)
    ensures Conserved(Run(Books([], subs, []), events))
  {
    var b := Books([], subs, []);
    RepeatsAreSafe(b, events, length);
    RunConserves(b, events);
  }

  // ------------------------------------------------------------- the in-memory copy bills twice

  lemma OneRecord(r: Record, tenant: Id, period: int, scope: Scope)
    ensures Sum([r], tenant, period, scope) == Share(r, tenant, period, scope)
  {
    assert [r][..0] == [] && Sum([], tenant, period, scope) == 0;
  }

  /** One tick over one unmarked record of the only subscription. */
  lemma OneSubscriptionTick(r: Record, s: Subscription, ledger: seq<Report>, answers: nat -> Answer)
    requires s.active && s.overageItem && !s.phoneItem && !r.marked && r.tenant == s.tenant && Minutes(r) > s.included
    requires answers(0) == Accepts
    ensures var b := MeterTick(Books([r], [s], ledger), r.period, answers).0;
            b.records == [r.(marked := true)] && b.subscriptions == [s]
            && b.ledger == ledger + [Report(s.tenant, r.period, Minutes(r) - s.included)]
  {
    var rs, period := [r], r.period;
    OneRecord(r, s.tenant, period, All);
    OneRecord(r, s.tenant, period, Marked);
    assert [s][..0] == [] && Batches(rs, [], period) == [];
    var batch := BatchOf(rs, s, period);
    assert Batches(rs, [s], period) == [batch];
    assert rs[0].call in Unmarked(rs, s.tenant, period);
    assert Mark(rs, s.tenant, batch.calls) == [r.(marked := true)];
    var b := Books(rs, [s], ledger);
    var (b1, t1) := Report1(b, batch, period, Accepts, Totals(0, 0, 0));
    assert ReportFrom(b, [batch], 0, period, answers, Totals(0, 0, 0)) ==
             ReportFrom(b1, [batch], 1, period, answers, t1);
  }

  lemma SeenAgain(r: Record)
    ensures MemoryUpsert([], r.call, r.tenant, r.period, r.seconds, r.cost) == [r.(marked := false)]
    ensures MemoryUpsert([r], r.call, r.tenant, r.period, r.seconds, r.cost) == [r.(marked := false)]
  {
    assert Find([], r.call) == 0;
    assert [r][..0] == [] && Find([r], r.call) == 0;
  }

  /** The in-memory upsert drops the marker: a minute of overage whose end is reported again,
      unchanged, is billed a second time at the next tick. */
  lemma MemoryBillsTwice(answers: nat -> Answer)
    requires answers(0) == Accepts
    ensures var s := Subscription(1, true, 0, 5, true, false);
            var first := MeterTick(Books(MemoryUpsert([], 7, 1, 0, 60, 0.0), [s], []), 0, answers).0;
            var second := MeterTick(first.(records := MemoryUpsert(first.records, 7, 1, 0, 60, 0.0)), 0, answers).0;
            && Billed(first.ledger, 1, 0) == OverageMinutes(first.records, s, 0) == 1
            && Billed(second.ledger, 1, 0) == 2 && OverageMinutes(second.records, s, 0) == 1
  {
    var s, r := Subscription(1, true, 0, 5, true, false), Record(7, 1, 0, 60, 0.0, false);
    var marked := r.(marked := true);
    SeenAgain(r);
    SeenAgain(marked);
    OneSubscriptionTick(r, s, [], answers);
    OneSubscriptionTick(r, s, [] + [Report(1, 0, 1)], answers);
    OneRecord(marked, 1, 0, All);
    BilledAppend([], Report(1, 0, 1), 1, 0);
    BilledAppend([] + [Report(1, 0, 1)], Report(1, 0, 1), 1, 0);
  }

  // --------------------------------------------------------- the SQL upsert of a longer call

  /** A tick over one marked record of the only subscription reports nothing. */
  lemma MarkedTick(r: Record, s: Subscription, ledger: seq<Report>, answers: nat -> Answer)
    requires s.active && !s.phoneItem && r.marked && r.tenant == s.tenant
    ensures MeterTick(Books([r], [s], ledger), r.period, answers).0 == Books([r], [s], ledger)
  {
    var rs, period := [r], r.period;
    OneRecord(r, s.tenant, period, All);
    OneRecord(r, s.tenant, period, Marked);
    assert [s][..0] == [] && Batches(rs, [], period) == [];
    var batch, b := BatchOf(rs, s, period), Books(rs, [s], ledger);
    assert Batches(rs, [s], period) == [batch] && batch.delta == 0 && batch.calls == {};
    assert Mark(rs, s.tenant, {}) == rs;
    var (b1, t1) := Report1(b, batch, period, answers(0), Totals(0, 0, 0));
    assert ReportFrom(b, [batch], 0, period, answers, Totals(0, 0, 0)) ==
             ReportFrom(b1, [batch], 1, period, answers, t1);
  }

  lemma SeenLonger(r: Record, seconds: nat)
    ensures SqlUpsert([], r.call, r.tenant, r.period, r.seconds, r.cost) == [r.(marked := false)]
    ensures SqlUpsert([r], r.call, r.tenant, r.period, seconds, r.cost) == [r.(seconds := seconds)]
  {
    assert Find([], r.call) == 0;
    assert [r][..0] == [] && Find([r], r.call) == 0;
  }

  /** The SQL upsert keeps the marker: a call of one minute that was billed and is then reported
      with two stays billed for one, although two are shown, nothing is left to mark, and every
      later tick is accepted. */
  lemma SqlGrowthStaysUnbilled(answers: nat -> Answer)
    requires answers(0) == Accepts
    ensures var s := Subscription(1, true, 0, 5, true, false);
            var first := MeterTick(Books(SqlUpsert([], 7, 1, 0, 60, 0.0), [s], []), 0, answers).0;
            var longer := first.(records := SqlUpsert(first.records, 7, 1, 0, 120, 0.0));
            && Billed(first.ledger, 1, 0) == OverageMinutes(first.records, s, 0) == 1
            && MeterTick(longer, 0, answers).0 == longer
            && Billed(longer.ledger, 1, 0) == 1 && OverageMinutes(longer.records, s, 0) == 2
            && Unmarked(longer.records, 1, 0) == {} && !Law(longer, s, 0)
  {
    var s, r := Subscription(1, true, 0, 5, true, false), Record(7, 1, 0, 60, 0.0, false);
    var marked := r.(marked := true);
    var longer := marked.(seconds := 120);
    SeenLonger(r, 60);
    SeenLonger(marked, 120);
    OneSubscriptionTick(r, s, [], answers);
    MarkedTick(longer, s, [] + [Report(1, 0, 1)], answers);
    OneRecord(marked, 1, 0, All);
    OneRecord(longer, 1, 0, All);
    OneRecord(longer, 1, 0, Marked);
    BilledAppend([], Report(1, 0, 1), 1, 0);
  }

  // ------------------------------------------------------------------------------- usage alerts

  /** `billing_threshold_events` for one subscription: the thresholds its minutes have reached. */
  predicate Crossed(rs: seq<Record>, s: Subscription, period: int, threshold: nat) {
    s.included != 0 && Sum(rs, s.tenant, period, All) * 100 >= s.included * threshold
  }

  type AlertKey = (Id, int, nat)

  /** The started minutes are at least this percentage of the minutes the plan includes. */
  ghost predicate Reached(rs: seq<Record>, s: Subscription, period: int, percent: nat) {
    s.included > 0 && 100 * StartedIn(rs, s.tenant, period, false) >= percent * s.included
  }

  lemma CrossedReached(rs: seq<Record>, s: Subscription, period: int, percent: nat)
    ensures Crossed(rs, s, period, percent) <==> Reached(rs, s, period, percent)
  {
    SumIsStarted(rs, s.tenant, period);
  }

  /** The loops of `billing_threshold_events`: an alert is raised the first time a threshold is
      seen crossed, for every active subscription, and never again. */
  method ThresholdEvents(rs: seq<Record>, subs: seq<Subscription>, period: int, raised: set<AlertKey>)
      returns (events: seq<AlertKey>, after: set<AlertKey>)
    ensures after == raised + set k | k in events
    ensures forall i, j :: 0 <= i < j < |events| ==> events[i] != events[j]
    ensures forall k :: k in events ==> k !in raised
    ensures forall k: AlertKey :: k in after <==>
              k in raised || (k.1 == period && (k.2 == 80 || k.2 == 100) &&
                exists i :: 0 <= i < |subs| && subs[i].active && subs[i].tenant == k.0
                  && Reached(rs, subs[i], period, k.2))
  {
    events, after := [], raised;
    for i := 0 to |subs|
      invariant after == raised + set k | k in events
      invariant forall a, b :: 0 <= a < b < |events| ==> events[a] != events[b]
      invariant forall k :: k in events ==> k !in raised
      invariant forall k: AlertKey :: k in after <==>
                  k in raised || (k.1 == period && (k.2 == 80 || k.2 == 100) &&
                    exists j :: 0 <= j < i && subs[j].active && subs[j].tenant == k.0
                      && Reached(rs, subs[j], period, k.2))
    {
      var s := subs[i];
      if !s.active {
        continue;
      }
      var low, high := (s.tenant, period, 80), (s.tenant, period, 100);
      CrossedReached(rs, s, period, 80);
      CrossedReached(rs, s, period, 100);
      if Crossed(rs, s, period, 80) && low !in after {
        events, after := events + [low], after + {low};
      }
      if Crossed(rs, s, period, 100) && high !in after {
        events, after := events + [high], after + {high};
      }
    }
  }
}
