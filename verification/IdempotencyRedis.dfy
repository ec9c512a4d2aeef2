/**
 * The Redis store against the in-memory one: every step over Redis is a step over memory, except
 * that a request whose key is released between its two commands is told "in progress". The move
 * `Refuse` stands for that; the in-memory store never makes it.
 */
module IdempotencyRedis {
  import opened Wrappers
  import opened Idempotency
  import opened IdempotencySafety

  /** A request between its two commands has not yet reserved anything. */
  function Abs(s: System): System {
    s.(requests := map r | r in s.requests :: s.requests[r].(pc := AbsPc(s.requests[r].pc)))
  }

  function AbsPc(pc: Pc): Pc {
    if pc.Reading? then Start else pc
  }

  /** The in-memory step a Redis step amounts to. `Get` is no step in memory. */
  function MemoryEvent(s: System, e: Event): Event {
    match e
    case Begin(r) =>
      if r in s.requests && s.requests[r].pc.Start? && s.requests[r].key !in s.store then e else Get(r)
    case Get(r) =>
      if r in s.requests && s.requests[r].pc.Reading? then
        if s.requests[r].key in s.store then Begin(r) else Refuse(r)
      else e
    case BeginRaises(r, io) => if r in s.requests && s.requests[r].pc.Reading? then BeginRaises(r, RaisesBefore) else e
    case Refuse(r) => Get(r)
    case _ => e
  }

  lemma StepRefines(s: System, e: Event)
    requires Inv(Abs(s))
    ensures Abs(RedisStep(s, e)) == Step(Abs(s), MemoryEvent(s, e))
  {
    if IsShared(e) {
      SharedRefines(s, e);
    } else if e.CompleteCall? || e.StoreError? {
      WritesRefine(s, e);
    } else {
      ReservesRefine(s, e);
    }
  }

  /** The steps that are the same over both stores. */
  predicate IsShared(e: Event) {
    e.CreateCall? || e.Provision? || e.Fails? || e.MarkFailed? || e.Release?
  }

  lemma WritesRefine(s: System, e: Event)
    requires Inv(Abs(s)) && (e.CompleteCall? || e.StoreError?)
    ensures Abs(RedisStep(s, e)) == Step(Abs(s), MemoryEvent(s, e))
  {
    match e
    case CompleteCall(r, io) => CompleteRefines(s, r, io);
    case StoreError(r, io) => ErrorRefines(s, r, io);
  }

  lemma ReservesRefine(s: System, e: Event)
    requires !IsShared(e) && !e.CompleteCall? && !e.StoreError?
    ensures Abs(RedisStep(s, e)) == Step(Abs(s), MemoryEvent(s, e))
  {
    match e
    case Arrive(r, key, fingerprint) => ArriveRefines(s, r, key, fingerprint);
    case Begin(r) => if r in s.requests && s.requests[r].pc.Start? { BeginRefines(s, r); }
    case BeginRaises(r, io) => RaiseRefines(s, r, io);
    case Get(r) => if r in s.requests && s.requests[r].pc.Reading? { GetRefines(s, r); }
    case Refuse(r) =>
  }

  lemma ArriveRefines(s: System, r: Id, key: Key, fingerprint: string)
    ensures Abs(RedisStep(s, Arrive(r, key, fingerprint))) == Step(Abs(s), Arrive(r, key, fingerprint))
  {
    var e := Arrive(r, key, fingerprint);
    assert r !in s.requests ==> Abs(Step(s, e)).requests == Step(Abs(s), e).requests;
  }

  /** Moving one request commutes with the abstraction. */
  lemma AtAbs(s: System, r: Id, pc: Pc)
    requires r in s.requests
    ensures Abs(At(s, r, pc)) == At(Abs(s), r, AbsPc(pc))
  {
    assert Abs(At(s, r, pc)).requests == At(Abs(s), r, AbsPc(pc)).requests;
  }

  lemma BeginRefines(s: System, r: Id)
    requires r in s.requests && s.requests[r].pc.Start?
    ensures Abs(RedisStep(s, Begin(r))) == Step(Abs(s), MemoryEvent(s, Begin(r)))
  {
    var (store, acquired) := RedisSet(s.store, s.requests[r].key, s.requests[r].fingerprint);
    AtAbs(s.(store := store), r, if acquired then Held else Reading);
    if !acquired {
      assert At(Abs(s), r, Start).requests == Abs(s).requests;
    }
  }

  lemma RaiseRefines(s: System, r: Id, io: Io)
    ensures Abs(RedisStep(s, BeginRaises(r, io))) == Step(Abs(s), MemoryEvent(s, BeginRaises(r, io)))
  {
    if r in s.requests {
      var q := s.requests[r];
      AtAbs(s, r, Gone);
      AtAbs(s.(store := ReserveKey(s.store, q.key, q.fingerprint).0), r, Gone);
    }
  }

  lemma GetRefines(s: System, r: Id)
    requires r in s.requests && s.requests[r].pc.Reading?
    ensures Abs(RedisStep(s, Get(r))) == Step(Abs(s), MemoryEvent(s, Get(r)))
  {
    AtAbs(s, r, Replied(RedisGet(s.store, s.requests[r].key, s.requests[r].fingerprint)));
  }

  lemma CompleteRefines(s: System, r: Id, io: Io)
    requires Inv(Abs(s))
    ensures Abs(RedisStep(s, CompleteCall(r, io))) == Step(Abs(s), CompleteCall(r, io))
  {
    if r in s.requests && s.requests[r].pc.Ready? {
      assert Holds(Abs(s), r);
      var q := s.requests[r];
      var written := s.(store := RedisComplete(s.store, q.key, q.fingerprint, Created(q.pc.call)));
      var pc := match io
        case Done => Replied(Replay(Created(q.pc.call)))
        case RaisesBefore => Failing(Some(q.pc.call), Other, false)
        case RaisesAfter => Failing(Some(q.pc.call), Other, true);
      AtAbs(if io.RaisesBefore? then s else written, r, pc);
    }
  }

  lemma ErrorRefines(s: System, r: Id, io: Io)
    requires Inv(Abs(s))
    ensures Abs(RedisStep(s, StoreError(r, io))) == Step(Abs(s), StoreError(r, io))
  {
    if r in s.requests && s.requests[r].pc.Storing? {
      assert Holds(Abs(s), r);
      var q := s.requests[r];
      var response := StoredError(502, q.pc.message);
      var written := s.(store := RedisComplete(s.store, q.key, q.fingerprint, response));
      AtAbs(if io.RaisesBefore? then s else written, r, if io.Done? then Replied(Replay(response)) else Gone);
    }
  }

  lemma SharedRefines(s: System, e: Event)
    requires IsShared(e)
    ensures Abs(Step(s, e)) == Step(Abs(s), e)
  {
    match e
    case CreateCall(r) =>
      if r in s.requests {
        var s1 := s.(calls := s.calls[s.nextCall := Call(s.requests[r].key, false)], nextCall := s.nextCall + 1);
        AtAbs(s1, r, Dialing(s.nextCall));
      }
    case Provision(r) =>
      if r in s.requests && s.requests[r].pc.Dialing? { AtAbs(s, r, Ready(s.requests[r].pc.call)); }
    case Fails(r, why) =>
      if r in s.requests {
        AtAbs(s, r, Failing(if s.requests[r].pc.Dialing? then Some(s.requests[r].pc.call) else None, why, false));
      }
    case MarkFailed(r, ok) => if r in s.requests && s.requests[r].pc.Failing? { MarkRefines(s, r, ok); }
    case Release(r, io) =>
      if r in s.requests {
        AtAbs(if io.RaisesBefore? then s else s.(store := ReleaseKey(s.store, s.requests[r].key)), r, Gone);
      }
    case _ =>
  }

  lemma MarkRefines(s: System, r: Id, ok: bool)
    requires r in s.requests && s.requests[r].pc.Failing?
    ensures Abs(Step(s, MarkFailed(r, ok))) == Step(Abs(s), MarkFailed(r, ok))
  {
    var pc := s.requests[r].pc;
    var marked := if pc.called.Some? && pc.called.value in s.calls
                  then s.(calls := s.calls[pc.called.value := s.calls[pc.called.value].(failed := true)]) else s;
    AtAbs(s, r, Gone);
    AtAbs(marked, r, if pc.why.Telephony? then Storing(pc.why.message) else Releasing(pc.stored));
  }

  function RedisRun(s: System, events: seq<Event>): System {
    if events == [] then s else RedisStep(RedisRun(s, events[..|events| - 1]), events[|events| - 1])
  }

  function MemoryEvents(s: System, events: seq<Event>): (r: seq<Event>)
    ensures |r| == |events|
  {
    if events == [] then []
    else var n := |events| - 1; MemoryEvents(s, events[..n]) + [MemoryEvent(RedisRun(s, events[..n]), events[n])]
  }

  /** Every run over Redis is a run over memory with `Refuse` added. */
  lemma {:induction false} RunRefines(events: seq<Event>)
    ensures Abs(RedisRun(EMPTY, events)) == Run(EMPTY, MemoryEvents(EMPTY, events))
    ensures Inv(Abs(RedisRun(EMPTY, events)))
  {
    if events == [] {
      assert Abs(EMPTY) == EMPTY;
    } else {
      var n := |events| - 1;
      var before, mapped := RedisRun(EMPTY, events[..n]), MemoryEvents(EMPTY, events);
      RunRefines(events[..n]);
      assert mapped[..n] == MemoryEvents(EMPTY, events[..n]);
      StepRefines(before, events[n]);
      StepKeepsInv(Abs(before), mapped[n]);
    }
  }

  /** So the guarantee of the in-memory store carries over. */
  lemma RedisAtMostOneLiveCall(events: seq<Event>, key: Key)
    ensures var s := RedisRun(EMPTY, events);
            && |Live(s, key)| <= 1
            && forall a, b | Works(s, a) && Works(s, b) && s.requests[a].key == s.requests[b].key == key :: a == b
  {
    RunRefines(events);
    AtMostOneLiveCall(MemoryEvents(EMPTY, events), key);
    var s := RedisRun(EMPTY, events);
    assert Live(s, key) == Live(Abs(s), key);
    assert forall a :: Works(s, a) ==> Works(Abs(s), a) && Abs(s).requests[a].key == s.requests[a].key;
  }
}
