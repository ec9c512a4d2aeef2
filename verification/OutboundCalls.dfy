/**
 * The idempotent part of `create_outbound_call` (apps/api/voiceos_api/routes.py) as it runs for
 * one request on the shared records, undisturbed by others: it takes exactly the steps of the
 * protocol, in order.
 */
module OutboundCalls {
  import opened Wrappers
  import opened Idempotency
  import opened IdempotencySafety

  /** What the outside does: where the work fails, if anywhere, and how each store command and the
      marking of the call fare. */
  datatype Work = FailsEarly(why: Failure) | FailsLate(why: Failure) | Succeeds(complete: Io)

  datatype Outside = Outside(reserve: Io, work: Work, marked: bool, store: Io, release: Io)

  /** A step that is not enabled does nothing. */
  function Script(r: Id, key: Key, fingerprint: string, o: Outside): seq<Event> {
    [Arrive(r, key, fingerprint), Reserves(r, o.reserve)] + WorkEvents(r, o.work)
    + [MarkFailed(r, o.marked), StoreError(r, o.store), Release(r, o.release)]
  }

  function Reserves(r: Id, io: Io): Event {
    if io.Done? then Begin(r) else BeginRaises(r, io)
  }

  function WorkEvents(r: Id, work: Work): seq<Event> {
    match work
    case FailsEarly(why) => [Fails(r, why)]
    case FailsLate(why) => [CreateCall(r), Fails(r, why)]
    case Succeeds(io) => [CreateCall(r), Provision(r), CompleteCall(r, io)]
  }

  function Worked(s: System, r: Id, work: Work): System {
    match work
    case FailsEarly(why) => Step(s, Fails(r, why))
    case FailsLate(why) => Step(Step(s, CreateCall(r)), Fails(r, why))
    case Succeeds(io) => Step(Step(Step(s, CreateCall(r)), Provision(r)), CompleteCall(r, io))
  }

  function CleanedUp(s: System, r: Id, o: Outside): System {
    Step(Step(Step(s, MarkFailed(r, o.marked)), StoreError(r, o.store)), Release(r, o.release))
  }

  function Served(s: System, r: Id, key: Key, fingerprint: string, o: Outside): System {
    CleanedUp(Worked(Step(Step(s, Arrive(r, key, fingerprint)), Reserves(r, o.reserve)), r, o.work), r, o)
  }

  // --------------------------------------------------------------- serving is a protocol run

  lemma RunSnoc(s: System, events: seq<Event>, e: Event)
    ensures Run(s, events + [e]) == Step(Run(s, events), e)
  {
    assert (events + [e])[..|events|] == events;
  }

  lemma {:induction false} RunAppend(s: System, events: seq<Event>, more: seq<Event>)
    ensures Run(s, events + more) == Run(Run(s, events), more)
  {
    if more == [] {
      assert events + more == events;
    } else {
      var n := |more| - 1;
      RunAppend(s, events, more[..n]);
      assert events + more == (events + more[..n]) + [more[n]];
      RunSnoc(s, events + more[..n], more[n]);
    }
  }

  lemma RunOne(s: System, a: Event)
    ensures Run(s, [a]) == Step(s, a)
  {
    assert [a][..0] == [];
  }

  lemma RunTwo(s: System, a: Event, b: Event)
    ensures Run(s, [a, b]) == Step(Step(s, a), b)
  {
    RunOne(s, a);
    assert [a, b][..1] == [a];
  }

  lemma RunThree(s: System, a: Event, b: Event, c: Event)
    ensures Run(s, [a, b, c]) == Step(Step(Step(s, a), b), c)
  {
    RunTwo(s, a, b);
    assert [a, b, c][..2] == [a, b];
  }

  lemma WorkedIsRun(s: System, r: Id, work: Work)
    ensures Worked(s, r, work) == Run(s, WorkEvents(r, work))
  {
    match work
    case FailsEarly(why) => RunOne(s, Fails(r, why));
    case FailsLate(why) => RunTwo(s, CreateCall(r), Fails(r, why));
    case Succeeds(io) => RunThree(s, CreateCall(r), Provision(r), CompleteCall(r, io));
  }

  /** Serving a request is running its script; so all that holds of every run holds of it. */
  lemma ServedIsRun(s: System, r: Id, key: Key, fingerprint: string, o: Outside)
    ensures Served(s, r, key, fingerprint, o) == Run(s, Script(r, key, fingerprint, o))
  {
    var first, work := [Arrive(r, key, fingerprint), Reserves(r, o.reserve)], WorkEvents(r, o.work);
    var s1 := Run(s, first);
    RunTwo(s, Arrive(r, key, fingerprint), Reserves(r, o.reserve));
    WorkedIsRun(s1, r, o.work);
    RunAppend(s, first, work);
    RunThree(Run(s, first + work), MarkFailed(r, o.marked), StoreError(r, o.store), Release(r, o.release));
    RunAppend(s, first + work, [MarkFailed(r, o.marked), StoreError(r, o.store), Release(r, o.release)]);
  }

  /** A request that has been answered or has raised takes no further step. */
  lemma EndedStays(s: System, r: Id, o: Outside)
    requires r in s.requests && (s.requests[r].pc.Replied? || s.requests[r].pc.Gone?)
    ensures Worked(s, r, o.work) == s && CleanedUp(s, r, o) == s
  {
  }

  // ---------------------------------------------------------------------------- the answers

  /** What a request is answered when its key finds this store and its call would get this number;
      None when it ends with an exception. */
  ghost predicate IsAnswer(store: Store, call: Id, key: Key, fingerprint: string, o: Outside, answer: Option<Answer>) {
    if !o.reserve.Done? then answer == None
    else if key in store then answer.Some? && AnswersFor(store, key, fingerprint, answer.value)
    else IsOutcome(call, o, answer)
  }

  /** The same for a request that holds its key: the call it created; the provider's error, once
      the call, if there is one, is marked and the error is stored; nothing otherwise. */
  predicate IsOutcome(call: Id, o: Outside, answer: Option<Answer>) {
    match o.work
    case Succeeds(io) => answer == if io.Done? then Some(Replay(Created(call))) else None
    case FailsEarly(why) =>
      answer == if why.Telephony? && o.store.Done? then Some(Replay(StoredError(502, why.message))) else None
    case FailsLate(why) =>
      answer == if why.Telephony? && o.marked && o.store.Done?
                then Some(Replay(StoredError(502, why.message))) else None
  }

  function EndedAs(answer: Option<Answer>): Pc {
    if answer.Some? then Replied(answer.value) else Gone
  }

  /** What a handler that was left in this state answers. */
  predicate IsHandled(called: Option<Id>, why: Failure, o: Outside, answer: Option<Answer>) {
    answer == if why.Telephony? && (called == None || o.marked) && o.store.Done?
              then Some(Replay(StoredError(502, why.message))) else None
  }

  lemma CleanedUpAs(s: System, r: Id, o: Outside) returns (answer: Option<Answer>)
    requires r in s.requests && s.requests[r].pc.Failing?
    ensures IsHandled(s.requests[r].pc.called, s.requests[r].pc.why, o, answer)
    ensures r in CleanedUp(s, r, o).requests && CleanedUp(s, r, o).requests[r].pc == EndedAs(answer)
  {
    var pc := s.requests[r].pc;
    answer := if pc.why.Telephony? && (pc.called == None || o.marked) && o.store.Done?
              then Some(Replay(StoredError(502, pc.why.message))) else None;
  }

  lemma WorkedAs(s: System, r: Id, o: Outside) returns (answer: Option<Answer>)
    requires r in s.requests && s.requests[r].pc.Held?
    ensures IsOutcome(s.nextCall, o, answer)
    ensures var s1 := CleanedUp(Worked(s, r, o.work), r, o); r in s1.requests && s1.requests[r].pc == EndedAs(answer)
  {
    var s1 := Worked(s, r, o.work);
    if o.work.Succeeds? && o.work.complete.Done? {
      EndedStays(s1, r, o);
      answer := Some(Replay(Created(s.nextCall)));
    } else {
      answer := CleanedUpAs(s1, r, o);
    }
  }

  /** What a request served alone is answered, whatever its key finds and whatever fails. */
  lemma ServedAnswer(s: System, r: Id, key: Key, fingerprint: string, o: Outside) returns (answer: Option<Answer>)
    requires r !in s.requests
    ensures IsAnswer(s.store, s.nextCall, key, fingerprint, o, answer)
    ensures var s1 := Served(s, r, key, fingerprint, o); r in s1.requests && s1.requests[r].pc == EndedAs(answer)
  {
    var begun := Step(Step(s, Arrive(r, key, fingerprint)), Reserves(r, o.reserve));
    if o.reserve.Done? && key !in s.store {
      answer := WorkedAs(begun, r, o);
    } else {
      EndedStays(begun, r, o);
      answer := if begun.requests[r].pc.Replied? then Some(begun.requests[r].pc.answer) else None;
    }
  }

  // ---------------------------------------------------------------------------- the handler

  class OutboundCallHandler {
    const idempotency: MemoryIdempotencyStore
    var calls: map<Id, Call>
    var nextCall: Id

    constructor (idempotency: MemoryIdempotencyStore)
      ensures this.idempotency == idempotency && calls == map[] && nextCall == 0
    {
      this.idempotency, calls, nextCall := idempotency, map[], 0;
    }

    ghost function Snapshot(requests: map<Id, Request>): System
      reads this, idempotency
    {
      System(idempotency.values, requests, calls, nextCall)
    }

    /** The request ends as its program counter says: with an answer, or with an exception. */
    method CreateOutboundCall(ghost r: Id, ghost requests: map<Id, Request>, key: Key, fingerprint: string, o: Outside)
      returns (answer: Option<Answer>, ghost after: map<Id, Request>)
      requires r !in requests
      modifies this, idempotency
      ensures Snapshot(after) == Served(old(Snapshot(requests)), r, key, fingerprint, o)
      ensures r in after && after[r].pc == EndedAs(answer)
      ensures IsAnswer(old(idempotency.values), old(nextCall), key, fingerprint, o, answer)
    {
      ghost var arrived := Step(Snapshot(requests), Arrive(r, key, fingerprint));
      ghost var begun := Step(arrived, Reserves(r, o.reserve));
      if !o.reserve.Done? {
        if o.reserve.RaisesAfter? {
          var _ := idempotency.Reserve(key, fingerprint);
        }
        EndedStays(begun, r, o);
        after := begun.requests;
        return None, after;
      }
      var reserved := idempotency.Reserve(key, fingerprint);
      if reserved != Granted {
        EndedStays(begun, r, o);
        after := begun.requests;
        return Some(reserved), after;
      }
      var call, why, done;
      call, why, done, after := DoWork(r, begun.requests, key, fingerprint, o.work);
      if done {
        EndedStays(Snapshot(after), r, o);
        return Some(Replay(Created(call.value))), after;
      }
      answer, after := CleanUp(r, after, key, fingerprint, call, why, o);
    }

    /** The `try` block: `done` when it returned, `why` the exception otherwise. */
    method DoWork(ghost r: Id, ghost requests: map<Id, Request>, key: Key, fingerprint: string, work: Work)
      returns (call: Option<Id>, why: Failure, done: bool, ghost after: map<Id, Request>)
      requires r in requests && requests[r] == Request(key, fingerprint, Held)
      modifies this, idempotency
      ensures Snapshot(after) == Worked(old(Snapshot(requests)), r, work)
      ensures r in after && after[r].key == key && after[r].fingerprint == fingerprint
      ensures done ==> call == Some(old(nextCall)) && after[r].pc == Replied(Replay(Created(call.value)))
      ensures done <==> work == Succeeds(Done)
      ensures !done ==> call == (if work.FailsEarly? then None else Some(old(nextCall)))
      ensures !done ==> why == if work.Succeeds? then Other else work.why
      ensures !done ==> after[r].pc.Failing? && after[r].pc.called == call && after[r].pc.why == why
    {
      ghost var s := Snapshot(requests);
      after := Worked(s, r, work).requests;
      call, why, done := None, Other, false;
      if work.FailsEarly? {
        why := work.why;
        return;
      }
      call := Some(nextCall);
      calls := calls[nextCall := Call(key, false)];
      nextCall := nextCall + 1;
      if work.FailsLate? {
        why := work.why;
        return;
      }
      if work.complete.RaisesBefore? {
        return;
      }
      idempotency.Complete(key, fingerprint, Created(call.value));
      done := work.complete.Done?;
    }

    /** The two exception handlers. */
    method CleanUp(ghost r: Id, ghost requests: map<Id, Request>, key: Key, fingerprint: string, call: Option<Id>,
                   why: Failure, o: Outside)
      returns (answer: Option<Answer>, ghost after: map<Id, Request>)
      requires r in requests && requests[r].key == key && requests[r].fingerprint == fingerprint
      requires requests[r].pc.Failing? && requests[r].pc.called == call && requests[r].pc.why == why
      modifies this, idempotency
      ensures Snapshot(after) == CleanedUp(old(Snapshot(requests)), r, o)
      ensures r in after && after[r].pc == EndedAs(answer)
      ensures IsHandled(call, why, o, answer)
    {
      ghost var s := Snapshot(requests);
      after := CleanedUp(s, r, o).requests;
      answer := None;
      if call.Some? {
        if !o.marked {
          return;
        }
        if call.value in calls {
          calls := calls[call.value := calls[call.value].(failed := true)];
        }
      }
      if why.Telephony? {
        var response := StoredError(502, why.message);
        if o.store.RaisesBefore? {
          return;
        }
        idempotency.Complete(key, fingerprint, response);
        if o.store.Done? {
          answer := Some(Replay(response));
        }
      } else if !o.release.RaisesBefore? {
        idempotency.Release(key);
      }
    }
  }

  // ------------------------------------------------------------------- what a request achieves

  /** The call a request creates, if any, and whether it ends up marked failed. */
  function CallsAfter(s: System, key: Key, work: Work): map<Id, Call> {
    match work
    case FailsEarly(_) => s.calls
    case FailsLate(_) => s.calls[s.nextCall := Call(key, true)]
    case Succeeds(io) => s.calls[s.nextCall := Call(key, !io.Done?)]
  }

  lemma BegunAlone(s: System, r: Id, key: Key, fingerprint: string)
    requires r !in s.requests && key !in s.store
    ensures var s1 := Step(Step(s, Arrive(r, key, fingerprint)), Begin(r));
            && r in s1.requests && s1.requests[r] == Request(key, fingerprint, Held)
            && s1.store == s.store[key := Pending(fingerprint)] && s1.calls == s.calls && s1.nextCall == s.nextCall
  {
  }

  /** After the work, and after cleaning up when it failed. */
  lemma WorkedAlone(s: System, r: Id, key: Key, fingerprint: string, o: Outside)
    requires r in s.requests && s.requests[r] == Request(key, fingerprint, Held) && s.nextCall !in s.calls
    requires key in s.store && o.marked && o.store.Done? && o.release.Done?
    ensures var s1 := CleanedUp(Worked(s, r, o.work), r, o);
            && s1.calls == CallsAfter(s, key, o.work)
            && s1.store == match o.work
                 case FailsEarly(Telephony(m)) => s.store[key := Complete(fingerprint, StoredError(502, m))]
                 case FailsLate(Telephony(m)) => s.store[key := Complete(fingerprint, StoredError(502, m))]
                 case Succeeds(Done) => s.store[key := Complete(fingerprint, Created(s.nextCall))]
                 case _ => s.store - {key}
  {
    var s1 := Worked(s, r, o.work);
    if o.work.Succeeds? && o.work.complete.Done? {
      EndedStays(s1, r, o);
    } else {
      var called := if o.work.FailsEarly? then None else Some(s.nextCall);
      var why := if o.work.Succeeds? then Other else o.work.why;
      assert s1.requests[r].pc.Failing? && s1.requests[r].pc.called == called && s1.requests[r].pc.why == why;
      HandledAlone(s1, r, called, why, o);
    }
  }

  lemma HandledAlone(s: System, r: Id, called: Option<Id>, why: Failure, o: Outside)
    requires r in s.requests && s.requests[r].pc.Failing? && s.requests[r].pc.called == called
    requires s.requests[r].pc.why == why
    requires o.marked && o.store.Done? && o.release.Done?
    ensures var s1, q := CleanedUp(s, r, o), s.requests[r];
            && s1.store == (if why.Telephony?
                            then s.store[q.key := Complete(q.fingerprint, StoredError(502, why.message))]
                            else s.store - {q.key})
            && s1.calls == if called.Some? && called.value in s.calls
                           then s.calls[called.value := s.calls[called.value].(failed := true)] else s.calls
  {
  }

  /** Served alone on a free key: a successful request leaves its call live and its response
      stored; a telephony error leaves the error stored and no live call; any other exception
      leaves the key free again and no live call, when reserving and cleaning up go well. */
  lemma ServedAlone(s: System, r: Id, key: Key, fingerprint: string, o: Outside)
    requires Inv(s) && r !in s.requests && key !in s.store
    requires o.reserve.Done? && o.marked && o.store.Done? && o.release.Done?
    ensures var s1 := Served(s, r, key, fingerprint, o);
            match o.work
            case Succeeds(Done) =>
              Live(s1, key) == {s.nextCall} && key in s1.store
                && s1.store[key] == Complete(fingerprint, Created(s.nextCall))
            case FailsEarly(Telephony(m)) =>
              Live(s1, key) == {} && key in s1.store && s1.store[key] == Complete(fingerprint, StoredError(502, m))
            case FailsLate(Telephony(m)) =>
              Live(s1, key) == {} && key in s1.store && s1.store[key] == Complete(fingerprint, StoredError(502, m))
            case _ => Live(s1, key) == {} && key !in s1.store
  {
    var begun, s1 := Step(Step(s, Arrive(r, key, fingerprint)), Begin(r)), Served(s, r, key, fingerprint, o);
    BegunAlone(s, r, key, fingerprint);
    WorkedAlone(begun, r, key, fingerprint, o);
    LiveAfter(s, s1, key, o.work);
  }

  lemma LiveAfter(s: System, s1: System, key: Key, work: Work)
    requires Inv(s) && key !in s.store && s1.calls == CallsAfter(s, key, work)
    ensures Live(s1, key) == if work == Succeeds(Done) then {s.nextCall} else {}
  {
    assert forall c :: c in s.calls && s.calls[c].key == key ==> s.calls[c].failed;
  }

  // ----------------------------------------------------------------- when cleaning up fails too

  function EntryOf(s: System, key: Key): Option<Entry> {
    if key in s.store then Some(s.store[key]) else None
  }

  /** What is left under a key that was free, and whether the call is left live. A raising command
      took effect or not; when the call cannot be marked, nothing more is done. */
  predicate IsLeft(fingerprint: string, call: Id, o: Outside, entry: Option<Entry>, live: bool) {
    match o.work
    case Succeeds(io) =>
      var written := if io.RaisesBefore? then Pending(fingerprint) else Complete(fingerprint, Created(call));
      live == (io.Done? || !o.marked)
      && entry == if live || o.release.RaisesBefore? then Some(written) else None
    case FailsEarly(why) => !live && entry == FailedEntry(fingerprint, why, o)
    case FailsLate(why) =>
      live == !o.marked && entry == if live then Some(Pending(fingerprint)) else FailedEntry(fingerprint, why, o)
  }

  /** A telephony error is stored, anything else frees the key, unless that command did nothing. */
  function FailedEntry(fingerprint: string, why: Failure, o: Outside): Option<Entry> {
    if (if why.Telephony? then o.store.RaisesBefore? else o.release.RaisesBefore?) then Some(Pending(fingerprint))
    else if why.Telephony? then Some(Complete(fingerprint, StoredError(502, why.message)))
    else None
  }

  lemma HandledLeaves(s: System, r: Id, o: Outside)
    requires r in s.requests && s.requests[r].pc.Failing? && s.requests[r].key in s.store
    ensures var s1, q, pc := CleanedUp(s, r, o), s.requests[r], s.requests[r].pc;
            var marks := pc.called == None || o.marked;
            && s1.calls == (if pc.called.Some? && o.marked && pc.called.value in s.calls
                            then s.calls[pc.called.value := s.calls[pc.called.value].(failed := true)] else s.calls)
            && EntryOf(s1, q.key)
               == if !marks then Some(s.store[q.key])
                  else if pc.why.Telephony? then
                    if o.store.RaisesBefore? then Some(s.store[q.key])
                    else Some(Complete(q.fingerprint, StoredError(502, pc.why.message)))
                  else if o.release.RaisesBefore? then Some(s.store[q.key]) else None
  {
  }

  /** Whether the call is marked in the end. */
  predicate LeftLive(o: Outside) {
    o.work == Succeeds(Done) || (!o.work.FailsEarly? && !o.marked)
  }

  lemma ServedEntry(s: System, r: Id, key: Key, fingerprint: string, o: Outside)
    requires s.nextCall !in s.calls && r !in s.requests && key !in s.store && o.reserve.Done?
    ensures var s1 := Served(s, r, key, fingerprint, o);
            && IsLeft(fingerprint, s.nextCall, o, EntryOf(s1, key), LeftLive(o))
            && s1.calls == if o.work.FailsEarly? then s.calls else s.calls[s.nextCall := Call(key, !LeftLive(o))]
  {
    var begun := Step(Step(s, Arrive(r, key, fingerprint)), Begin(r));
    var worked := Worked(begun, r, o.work);
    BegunAlone(s, r, key, fingerprint);
    WorkLeaves(begun, r, o.work);
    if o.work == Succeeds(Done) {
      EndedStays(worked, r, o);
    } else {
      HandledLeaves(worked, r, o);
    }
  }

  /** Served alone on a free key, whatever goes wrong afterwards. */
  lemma ServedLeaves(s: System, r: Id, key: Key, fingerprint: string, o: Outside)
    requires Inv(s) && r !in s.requests && key !in s.store && o.reserve.Done?
    ensures var s1 := Served(s, r, key, fingerprint, o);
            && (Live(s1, key) == {} || Live(s1, key) == {s.nextCall})
            && IsLeft(fingerprint, s.nextCall, o, EntryOf(s1, key), Live(s1, key) != {})
  {
    ServedEntry(s, r, key, fingerprint, o);
    LiveAfterAny(s, Served(s, r, key, fingerprint, o), key, !o.work.FailsEarly?, !LeftLive(o));
  }

  lemma WorkLeaves(s: System, r: Id, work: Work)
    requires r in s.requests && s.requests[r].pc == Held && s.requests[r].key in s.store
    requires s.nextCall !in s.calls
    ensures var s1, q := Worked(s, r, work), s.requests[r];
            && r in s1.requests && s1.requests[r].key == q.key && s1.requests[r].fingerprint == q.fingerprint
            && s1.calls == (if work.FailsEarly? then s.calls else s.calls[s.nextCall := Call(q.key, false)])
            && q.key in s1.store
            && s1.store[q.key] == (if work.Succeeds? && !work.complete.RaisesBefore?
                                   then Complete(q.fingerprint, Created(s.nextCall)) else s.store[q.key])
            && (work == Succeeds(Done) ==> s1.requests[r].pc.Replied?)
            && (work != Succeeds(Done) ==>
                  && s1.requests[r].pc.Failing?
                  && s1.requests[r].pc.called == (if work.FailsEarly? then None else Some(s.nextCall))
                  && s1.requests[r].pc.why == (if work.Succeeds? then Other else work.why))
  {
  }

  lemma LiveAfterAny(s: System, s1: System, key: Key, called: bool, failed: bool)
    requires Inv(s) && key !in s.store
    requires s1.calls == if called then s.calls[s.nextCall := Call(key, failed)] else s.calls
    ensures Live(s1, key) == if called && !failed then {s.nextCall} else {}
  {
    assert forall c :: c in s.calls && s.calls[c].key == key ==> s.calls[c].failed;
  }
}
