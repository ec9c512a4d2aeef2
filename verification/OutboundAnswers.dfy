/**
 * What requests of `create_outbound_call` are answered: step by step in every interleaving, served
 * alone over Redis, and when they come again.
 */
module OutboundAnswers {
  import opened Wrappers
  import opened Idempotency
  import opened IdempotencySafety
  import opened IdempotencyRedis
  import opened RedisAnswers
  import opened OutboundCalls

  // ------------------------------------------------------------------------- in every interleaving

  predicate RepliedNow(s: System, s1: System, r: Id) {
    r in s.requests && r in s1.requests && !s.requests[r].pc.Replied? && s1.requests[r].pc.Replied?
  }

  /** Over the in-memory store a request is answered what its key's entry says right afterwards: a
      conflict for another payload, "in progress" while the entry is pending, and otherwise the
      stored response, which may be the call or the error it has just stored itself. */
  lemma StepAnswers(s: System, e: Event, r: Id)
    requires Inv(s) && RepliedNow(s, Step(s, e), r) && !e.Refuse?
    ensures AnswersFor(Step(s, e).store, s.requests[r].key, s.requests[r].fingerprint, Step(s, e).requests[r].pc.answer)
  {
    assert e.Begin? || e.CompleteCall? || e.StoreError?;
  }

  /** Over Redis too, unless the key has vanished between the two commands; then the answer is
      "in progress". */
  lemma RedisStepAnswers(s: System, e: Event, r: Id)
    requires Inv(Abs(s)) && RepliedNow(s, RedisStep(s, e), r)
    ensures var s1 := RedisStep(s, e);
            if Vanished(s, e) then s1.requests[r].pc.answer == InProgress
            else AnswersFor(s1.store, s.requests[r].key, s.requests[r].fingerprint, s1.requests[r].pc.answer)
  {
    if e.CompleteCall? || e.StoreError? {
      assert Abs(s).requests[r].pc == s.requests[r].pc && Holds(Abs(s), r);
      RedisWriteAnswers(s, e, r);
    } else {
      RedisGetAnswers(s, e, r);
    }
  }

  lemma RedisWriteAnswers(s: System, e: Event, r: Id)
    requires (e.CompleteCall? || e.StoreError?) && RepliedNow(s, RedisStep(s, e), r) && s.requests[r].key in s.store
    ensures var s1 := RedisStep(s, e);
            AnswersFor(s1.store, s.requests[r].key, s.requests[r].fingerprint, s1.requests[r].pc.answer)
  {
  }

  lemma RedisGetAnswers(s: System, e: Event, r: Id)
    requires !e.CompleteCall? && !e.StoreError? && RepliedNow(s, RedisStep(s, e), r)
    ensures var s1 := RedisStep(s, e);
            if Vanished(s, e) then s1.requests[r].pc.answer == InProgress
            else AnswersFor(s1.store, s.requests[r].key, s.requests[r].fingerprint, s1.requests[r].pc.answer)
  {
    assert e.Get?;
  }

  // ------------------------------------------------------------------------------- over Redis

  /** Served alone over Redis: the GET, which only a request waiting for it makes, may raise. */
  function RedisScript(r: Id, key: Key, fingerprint: string, o: Outside, get: Io): seq<Event> {
    [Arrive(r, key, fingerprint), Reserves(r, o.reserve), if get.Done? then Get(r) else BeginRaises(r, get)]
    + WorkEvents(r, o.work) + [MarkFailed(r, o.marked), StoreError(r, o.store), Release(r, o.release)]
  }

  lemma RedisSnoc(s: System, events: seq<Event>, e: Event)
    ensures RedisRun(s, events + [e]) == RedisStep(RedisRun(s, events), e)
  {
    assert (events + [e])[..|events|] == events;
  }

  lemma {:induction false} RedisAppend(s: System, events: seq<Event>, more: seq<Event>)
    ensures RedisRun(s, events + more) == RedisRun(RedisRun(s, events), more)
  {
    if more == [] {
      assert events + more == events;
    } else {
      var n := |more| - 1;
      RedisAppend(s, events, more[..n]);
      assert events + more == (events + more[..n]) + [more[n]];
      RedisSnoc(s, events + more[..n], more[n]);
    }
  }

  lemma RedisOne(s: System, a: Event)
    ensures RedisRun(s, [a]) == RedisStep(s, a)
  {
    assert [a][..0] == [];
  }

  lemma RedisTwo(s: System, a: Event, b: Event)
    ensures RedisRun(s, [a, b]) == RedisStep(RedisStep(s, a), b)
  {
    RedisOne(s, a);
    assert [a, b][..1] == [a];
  }

  lemma RedisThree(s: System, a: Event, b: Event, c: Event)
    ensures RedisRun(s, [a, b, c]) == RedisStep(RedisStep(RedisStep(s, a), b), c)
  {
    RedisTwo(s, a, b);
    assert [a, b, c][..2] == [a, b];
  }

  /** The key is there, and the request has done its `reserve`. */
  predicate Holding(s: System, r: Id) {
    && r in s.requests && s.requests[r].key in s.store
    && !s.requests[r].pc.Start? && !s.requests[r].pc.Reading?
  }

  predicate ByHolder(e: Event, r: Id) {
    match e
    case CreateCall(id) => id == r
    case Provision(id) => id == r
    case Fails(id, _) => id == r
    case CompleteCall(id, _) => id == r
    case MarkFailed(id, _) => id == r
    case StoreError(id, _) => id == r
    case _ => false
  }

  /** While its key is there a request takes the same steps over both stores. */
  lemma SameStep(s: System, e: Event, r: Id)
    requires Holding(s, r) && ByHolder(e, r)
    ensures RedisStep(s, e) == Step(s, e) && Holding(Step(s, e), r)
  {
  }

  lemma SameWork(s: System, r: Id, work: Work)
    requires Holding(s, r)
    ensures RedisRun(s, WorkEvents(r, work)) == Worked(s, r, work) && Holding(Worked(s, r, work), r)
  {
    match work
    case FailsEarly(why) =>
      RedisOne(s, Fails(r, why));
      SameStep(s, Fails(r, why), r);
    case FailsLate(why) =>
      RedisTwo(s, CreateCall(r), Fails(r, why));
      SameStep(s, CreateCall(r), r);
      SameStep(Step(s, CreateCall(r)), Fails(r, why), r);
    case Succeeds(io) =>
      RedisThree(s, CreateCall(r), Provision(r), CompleteCall(r, io));
      SameStep(s, CreateCall(r), r);
      SameStep(Step(s, CreateCall(r)), Provision(r), r);
      SameStep(Step(Step(s, CreateCall(r)), Provision(r)), CompleteCall(r, io), r);
  }

  function CleanEvents(r: Id, o: Outside): seq<Event> {
    [MarkFailed(r, o.marked), StoreError(r, o.store), Release(r, o.release)]
  }

  lemma SameCleanUp(s: System, r: Id, o: Outside)
    requires Holding(s, r)
    ensures RedisRun(s, CleanEvents(r, o)) == CleanedUp(s, r, o)
  {
    RedisThree(s, MarkFailed(r, o.marked), StoreError(r, o.store), Release(r, o.release));
    SameStep(s, MarkFailed(r, o.marked), r);
    SameStep(Step(s, MarkFailed(r, o.marked)), StoreError(r, o.store), r);
  }

  lemma RedisStopped(s: System, e: Event, r: Id)
    requires r in s.requests && (s.requests[r].pc.Replied? || s.requests[r].pc.Gone?)
    requires ByHolder(e, r) || (e.Release? && e.r == r)
    ensures RedisStep(s, e) == s
  {
  }

  lemma RedisEndedStays(s: System, r: Id, o: Outside)
    requires r in s.requests && (s.requests[r].pc.Replied? || s.requests[r].pc.Gone?)
    ensures RedisRun(s, WorkEvents(r, o.work)) == s
    ensures RedisRun(s, CleanEvents(r, o)) == s
  {
    AllStopped(s, WorkEvents(r, o.work), r);
    AllStopped(s, CleanEvents(r, o), r);
  }

  lemma {:induction false} AllStopped(s: System, events: seq<Event>, r: Id)
    requires r in s.requests && (s.requests[r].pc.Replied? || s.requests[r].pc.Gone?)
    requires forall e :: e in events ==> ByHolder(e, r) || (e.Release? && e.r == r)
    ensures RedisRun(s, events) == s
  {
    if events != [] {
      AllStopped(s, events[..|events| - 1], r);
      RedisStopped(s, events[|events| - 1], r);
    }
  }

  function RedisReserved(s: System, r: Id, key: Key, fingerprint: string, o: Outside, get: Io): System {
    RedisStep(RedisStep(RedisStep(s, Arrive(r, key, fingerprint)), Reserves(r, o.reserve)),
              if get.Done? then Get(r) else BeginRaises(r, get))
  }

  lemma RedisBegunFree(s: System, r: Id, key: Key, fingerprint: string, o: Outside, get: Io)
    requires r !in s.requests && key !in s.store && o.reserve.Done?
    ensures var s1 := RedisReserved(s, r, key, fingerprint, o, get);
            && r in s1.requests && s1.requests[r] == Request(key, fingerprint, Held)
            && key in s1.store && s1.nextCall == s.nextCall
  {
  }

  lemma RedisBegunTaken(s: System, r: Id, key: Key, fingerprint: string, o: Outside, get: Io)
    requires r !in s.requests && key in s.store && o.reserve.Done?
    ensures var s1 := RedisReserved(s, r, key, fingerprint, o, get);
            && r in s1.requests
            && s1.requests[r].pc == if get.Done? then Replied(Read(s.store[key], fingerprint)) else Gone
  {
  }

  lemma RedisBegunRaising(s: System, r: Id, key: Key, fingerprint: string, o: Outside, get: Io)
    requires r !in s.requests && !o.reserve.Done?
    ensures var s1 := RedisReserved(s, r, key, fingerprint, o, get); r in s1.requests && s1.requests[r].pc == Gone
  {
  }

  lemma RedisServedIs(s: System, r: Id, key: Key, fingerprint: string, o: Outside, get: Io)
    ensures var s1 := RedisRun(RedisReserved(s, r, key, fingerprint, o, get), WorkEvents(r, o.work));
            RedisRun(s, RedisScript(r, key, fingerprint, o, get)) == RedisRun(s1, CleanEvents(r, o))
  {
    var a, b := Arrive(r, key, fingerprint), Reserves(r, o.reserve);
    var c := if get.Done? then Get(r) else BeginRaises(r, get);
    var work, clean := WorkEvents(r, o.work), CleanEvents(r, o);
    assert RedisScript(r, key, fingerprint, o, get) == [a, b, c] + work + clean;
    RedisThree(s, a, b, c);
    RedisAppend(s, [a, b, c], work);
    RedisAppend(s, [a, b, c] + work, clean);
  }

  lemma RedisHeldAnswer(s: System, r: Id, o: Outside) returns (answer: Option<Answer>)
    requires Holding(s, r) && s.requests[r].pc == Held
    ensures IsOutcome(s.nextCall, o, answer)
    ensures var s1 := RedisRun(RedisRun(s, WorkEvents(r, o.work)), CleanEvents(r, o));
            r in s1.requests && s1.requests[r].pc == EndedAs(answer)
  {
    SameWork(s, r, o.work);
    SameCleanUp(Worked(s, r, o.work), r, o);
    answer := WorkedAs(s, r, o);
  }

  /** Served alone over Redis a request is answered what it is answered over memory, except that a
      GET that raises ends it. */
  lemma RedisServedAnswer(s: System, r: Id, key: Key, fingerprint: string, o: Outside, get: Io)
      returns (answer: Option<Answer>)
    requires r !in s.requests
    ensures if key in s.store && !get.Done? then answer == None
            else IsAnswer(s.store, s.nextCall, key, fingerprint, o, answer)
    ensures var s1 := RedisRun(s, RedisScript(r, key, fingerprint, o, get));
            r in s1.requests && s1.requests[r].pc == EndedAs(answer)
  {
    var begun := RedisReserved(s, r, key, fingerprint, o, get);
    RedisServedIs(s, r, key, fingerprint, o, get);
    if !o.reserve.Done? {
      RedisBegunRaising(s, r, key, fingerprint, o, get);
      RedisEndedStays(begun, r, o);
      answer := None;
    } else if key in s.store {
      RedisBegunTaken(s, r, key, fingerprint, o, get);
      RedisEndedStays(begun, r, o);
      answer := if get.Done? then Some(Read(s.store[key], fingerprint)) else None;
    } else {
      RedisBegunFree(s, r, key, fingerprint, o, get);
      answer := RedisHeldAnswer(begun, r, o);
    }
  }

  // ----------------------------------------------------------------------- when it comes again

  /** What a request was replayed, the call it created or the error it met included, is what every
      later request with that key and payload is answered, however many steps of others lie
      between, unless a writer withdraws the response. */
  lemma ComesAgain(s: System, r: Id, key: Key, fingerprint: string, o: Outside, response: Response,
                   between: seq<Event>, again: Id)
    requires Inv(s) && r !in s.requests && again !in Served(s, r, key, fingerprint, o).requests
    requires r in Served(s, r, key, fingerprint, o).requests
    requires Served(s, r, key, fingerprint, o).requests[r].pc == Replied(Replay(response))
    requires Undisturbing(Step(Served(s, r, key, fingerprint, o), Arrive(again, key, fingerprint)), between, key, again)
    ensures var waiting := Step(Served(s, r, key, fingerprint, o), Arrive(again, key, fingerprint));
            var later := Step(Run(waiting, between), Begin(again));
            again in later.requests && later.requests[again].pc == Replied(Replay(response))
  {
    var s1 := Served(s, r, key, fingerprint, o);
    ReplayedIsStored(s, r, key, fingerprint, o);
    ServedKeepsInv(s, r, key, fingerprint, o);
    WaitsAgain(s1, key, fingerprint, response, between, again);
  }

  /** No step of the request, and no withdrawal of the key's response. */
  ghost predicate Undisturbing(s: System, events: seq<Event>, key: Key, r: Id) {
    forall i :: 0 <= i < |events| ==> !Unwrites(Run(s, events[..i]), events[i], key) && !Moves(events[i], r)
  }

  lemma WaitsAgain(s: System, key: Key, fingerprint: string, response: Response, between: seq<Event>, again: Id)
    requires Inv(s) && again !in s.requests && key in s.store && s.store[key] == Complete(fingerprint, response)
    requires Undisturbing(Step(s, Arrive(again, key, fingerprint)), between, key, again)
    ensures var later := Step(Run(Step(s, Arrive(again, key, fingerprint)), between), Begin(again));
            again in later.requests && later.requests[again].pc == Replied(Replay(response))
  {
    var waiting := Step(s, Arrive(again, key, fingerprint));
    StepKeepsInv(s, Arrive(again, key, fingerprint));
    ReplaysForever(waiting, between, again);
  }

  lemma ServedKeepsInv(s: System, r: Id, key: Key, fingerprint: string, o: Outside)
    requires Inv(s)
    ensures Inv(Served(s, r, key, fingerprint, o))
  {
    ServedIsRun(s, r, key, fingerprint, o);
    RunKeepsInv(s, Script(r, key, fingerprint, o));
  }

  lemma {:induction false} RunKeepsInv(s: System, events: seq<Event>)
    requires Inv(s)
    ensures Inv(Run(s, events))
  {
    if events != [] {
      RunKeepsInv(s, events[..|events| - 1]);
      StepKeepsInv(Run(s, events[..|events| - 1]), events[|events| - 1]);
    }
  }

  lemma ReplayedIsStored(s: System, r: Id, key: Key, fingerprint: string, o: Outside)
    requires s.nextCall !in s.calls && r !in s.requests
    ensures var s1 := Served(s, r, key, fingerprint, o);
            && r in s1.requests
            && forall response :: s1.requests[r].pc == Replied(Replay(response)) ==>
                 key in s1.store && s1.store[key] == Complete(fingerprint, response)
  {
    var s1 := Served(s, r, key, fingerprint, o);
    var answer := ServedAnswer(s, r, key, fingerprint, o);
    if o.reserve.Done? && key !in s.store {
      ServedEntry(s, r, key, fingerprint, o);
    } else {
      EndedStays(Step(Step(s, Arrive(r, key, fingerprint)), Reserves(r, o.reserve)), r, o);
    }
  }

  /** On a free key a request does the same over both stores. */
  lemma RedisServedSame(s: System, r: Id, key: Key, fingerprint: string, o: Outside, get: Io)
    requires r !in s.requests && key !in s.store && o.reserve.Done?
    ensures RedisRun(s, RedisScript(r, key, fingerprint, o, get)) == Served(s, r, key, fingerprint, o)
  {
    var begun := RedisReserved(s, r, key, fingerprint, o, get);
    RedisServedIs(s, r, key, fingerprint, o, get);
    RedisBegunFree(s, r, key, fingerprint, o, get);
    assert begun == Step(Step(s, Arrive(r, key, fingerprint)), Begin(r));
    SameWork(begun, r, o.work);
    SameCleanUp(Worked(begun, r, o.work), r, o);
  }

  /** Over Redis too: what was replayed to the first request with a key is what a later one with
      the same payload is answered, whatever others do before its SET and between SET and GET. */
  lemma RedisComesAgain(s: System, r: Id, key: Key, fingerprint: string, o: Outside, get: Io, response: Response,
                        before: seq<Event>, between: seq<Event>, again: Id)
    requires Inv(Abs(s)) && r !in s.requests && key !in s.store && o.reserve.Done?
    requires var s1 := RedisRun(s, RedisScript(r, key, fingerprint, o, get));
             && again !in s1.requests && r in s1.requests && s1.requests[r].pc == Replied(Replay(response))
    requires var s1 := RedisRun(s, RedisScript(r, key, fingerprint, o, get));
             var waiting := RedisStep(s1, Arrive(again, key, fingerprint));
             && Quiet(waiting, before, again, key)
             && Quiet(RedisStep(RedisRun(waiting, before), Begin(again)), between, again, key)
    ensures var s1 := RedisRun(s, RedisScript(r, key, fingerprint, o, get));
            var reading := RedisStep(RedisRun(RedisStep(s1, Arrive(again, key, fingerprint)), before), Begin(again));
            var later := RedisStep(RedisRun(reading, between), Get(again));
            again in later.requests && later.requests[again].pc == Replied(Replay(response))
  {
    var s1 := RedisRun(s, RedisScript(r, key, fingerprint, o, get));
    RedisServedSame(s, r, key, fingerprint, o, get);
    ReplayedIsStored(s, r, key, fingerprint, o);
    RedisRunKeepsInv(s, RedisScript(r, key, fingerprint, o, get));
    RedisKeepsInv(s1, Arrive(again, key, fingerprint));
    RedisReplaysForever(RedisStep(s1, Arrive(again, key, fingerprint)), before, between, again);
  }

  lemma {:induction false} RedisRunKeepsInv(s: System, events: seq<Event>)
    requires Inv(Abs(s))
    ensures Inv(Abs(RedisRun(s, events)))
  {
    if events != [] {
      RedisRunKeepsInv(s, events[..|events| - 1]);
      RedisKeepsInv(RedisRun(s, events[..|events| - 1]), events[|events| - 1]);
    }
  }
}
