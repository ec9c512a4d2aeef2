/**
 * The idempotency-key stores (apps/api/voiceos_api/idempotency.py) and the requests of
 * `create_outbound_call` that share them (apps/api/voiceos_api/routes.py), as interleaved steps.
 * Nothing expires.
 */
module Idempotency {
  import opened Wrappers

  type Id = nat

  /** Tenant, operation and the client's key. */
  type Key = (nat, string, string)

  /** What a request stores for replay: the created call, or the error it answered with. */
  datatype Response = Created(call: Id) | StoredError(status: int, message: string)

  datatype Entry = Pending(fingerprint: string) | Complete(fingerprint: string, response: Response)

  type Store = map<Key, Entry>

  datatype Answer = Granted | Conflict | InProgress | Replay(response: Response)

  /** What an existing entry answers to a request with this fingerprint. */
  function Read(entry: Entry, fingerprint: string): Answer {
    if entry.fingerprint != fingerprint then Conflict
    else match entry
      case Pending(_) => InProgress
      case Complete(_, response) => Replay(response)
  }

  function ReserveKey(store: Store, key: Key, fingerprint: string): (Store, Answer) {
    if key !in store then (store[key := Pending(fingerprint)], Granted) else (store, Read(store[key], fingerprint))
  }

  function CompleteKey(store: Store, key: Key, fingerprint: string, response: Response): Store {
    store[key := Complete(fingerprint, response)]
  }

  function ReleaseKey(store: Store, key: Key): Store {
    store - {key}
  }

  // The Redis store: reserving is SET NX and then, when that fails, a separate GET; completing
  // writes only over an existing key.

  function RedisSet(store: Store, key: Key, fingerprint: string): (Store, bool) {
    if key !in store then (store[key := Pending(fingerprint)], true) else (store, false)
  }

  function RedisGet(store: Store, key: Key, fingerprint: string): Answer {
    if key !in store then InProgress else Read(store[key], fingerprint)
  }

  function RedisComplete(store: Store, key: Key, fingerprint: string, response: Response): Store {
    if key in store then store[key := Complete(fingerprint, response)] else store
  }

  /** What a request is answered by the entry of its key: a conflict for another payload, else "in
      progress" or the stored response. */
  ghost predicate AnswersFor(store: Store, key: Key, fingerprint: string, answer: Answer) {
    && key in store
    && (store[key].fingerprint != fingerprint ==> answer == Conflict)
    && (store[key] == Pending(fingerprint) ==> answer == InProgress)
    && (forall response :: store[key] == Complete(fingerprint, response) ==> answer == Replay(response))
  }

  class MemoryIdempotencyStore {
    var values: Store

    constructor ()
      ensures values == map[]
    {
      values := map[];
    }

    method Reserve(key: Key, fingerprint: string) returns (answer: Answer)
      modifies this
      ensures (values, answer) == ReserveKey(old(values), key, fingerprint)
      ensures key !in old(values) <==> answer == Granted
      ensures values == if answer == Granted then old(values)[key := Pending(fingerprint)] else old(values)
      ensures answer != Granted ==> AnswersFor(values, key, fingerprint, answer)
    {
      if key !in values {
        values := values[key := Pending(fingerprint)];
        return Granted;
      }
      var record := values[key];
      if record.fingerprint != fingerprint {
        return Conflict;
      }
      return if record.Pending? then InProgress else Replay(record.response);
    }

    method Complete(key: Key, fingerprint: string, response: Response)
      modifies this
      ensures values == CompleteKey(old(values), key, fingerprint, response)
    {
      values := values[key := Entry.Complete(fingerprint, response)];
    }

    method Release(key: Key)
      modifies this
      ensures values == ReleaseKey(old(values), key)
    {
      values := values - {key};
    }
  }

  /** One client's view of the shared Redis database; `values` may be changed by others between
      the two commands of `Reserve`, so these are separate methods. */
  class RedisIdempotencyStore {
    var values: Store

    constructor ()
      ensures values == map[]
    {
      values := map[];
    }

    method SetIfAbsent(key: Key, fingerprint: string) returns (acquired: bool)
      modifies this
      ensures (values, acquired) == RedisSet(old(values), key, fingerprint)
      ensures acquired <==> key !in old(values)
      ensures values == if acquired then old(values)[key := Pending(fingerprint)] else old(values)
    {
      acquired := key !in values;
      if acquired {
        values := values[key := Pending(fingerprint)];
      }
    }

    method Get(key: Key, fingerprint: string) returns (answer: Answer)
      ensures answer == RedisGet(values, key, fingerprint)
      ensures if key in values then AnswersFor(values, key, fingerprint, answer) else answer == InProgress
    {
      if key !in values {
        return InProgress;
      }
      var record := values[key];
      if record.fingerprint != fingerprint {
        return Conflict;
      }
      if record.Pending? {
        return InProgress;
      }
      return Replay(record.response);
    }

    method Complete(key: Key, fingerprint: string, response: Response)
      modifies this
      ensures values == RedisComplete(old(values), key, fingerprint, response)
      ensures key !in old(values) ==> values == old(values)
      ensures key in old(values) ==> values == old(values)[key := Entry.Complete(fingerprint, response)]
    {
      if key in values {
        values := values[key := Entry.Complete(fingerprint, response)];
      }
    }

    method Release(key: Key)
      modifies this
      ensures values == ReleaseKey(old(values), key)
    {
      values := values - {key};
    }
  }

  // ----------------------------------------------------------------- concurrent requests

  /** The exceptions `create_outbound_call` tells apart. */
  datatype Failure = Telephony(message: string) | Other

  /** Where a request stands. `Reading` is between the two Redis commands. After `Fails` the
      request is in an exception handler; `stored` says that its own `complete` raised although
      the response had been written. `Gone` is a request that ended with an exception. */
  datatype Pc =
    | Start
    | Reading
    | Held
    | Dialing(call: Id)
    | Ready(call: Id)
    | Failing(called: Option<Id>, why: Failure, stored: bool)
    | Storing(message: string)
    | Releasing(stored: bool)
    | Replied(answer: Answer)
    | Gone

  datatype Request = Request(key: Key, fingerprint: string, pc: Pc)

  datatype Call = Call(key: Key, failed: bool)

  datatype System = System(store: Store, requests: map<Id, Request>, calls: map<Id, Call>, nextCall: Id)

  /** A store command may raise without effect or after its effect. */
  datatype Io = Done | RaisesBefore | RaisesAfter

  datatype Event =
    | Arrive(r: Id, key: Key, fingerprint: string)
    | Begin(r: Id)
    | BeginRaises(r: Id, io: Io)
    | CreateCall(r: Id)
    | Provision(r: Id)
    | Fails(r: Id, why: Failure)
    | CompleteCall(r: Id, io: Io)
    | MarkFailed(r: Id, ok: bool)
    | StoreError(r: Id, io: Io)
    | Release(r: Id, io: Io)
    | Refuse(r: Id)
    | Get(r: Id)

  function At(s: System, r: Id, pc: Pc): System
    requires r in s.requests
  {
    s.(requests := s.requests[r := s.requests[r].(pc := pc)])
  }

  predicate Working(pc: Pc) {
    pc.Held? || pc.Dialing? || pc.Ready? || pc.Failing? || pc.Storing? || pc.Releasing?
  }

  /** One step of one request over the in-memory store. A step that is not enabled does nothing. */
  function Step(s: System, e: Event): System {
    match e
    case Arrive(r, key, fingerprint) =>
      if r in s.requests then s else s.(requests := s.requests[r := Request(key, fingerprint, Start)])
    case Begin(r) =>
      if r !in s.requests || !s.requests[r].pc.Start? then s
      else
        var q := s.requests[r];
        var (store, answer) := ReserveKey(s.store, q.key, q.fingerprint);
        At(s.(store := store), r, if answer.Granted? then Held else Replied(answer))
    case BeginRaises(r, io) =>
      if r !in s.requests || !s.requests[r].pc.Start? then s
      else
        var q := s.requests[r];
        At(if io.RaisesBefore? then s else s.(store := ReserveKey(s.store, q.key, q.fingerprint).0), r, Gone)
    case CreateCall(r) =>
      if r !in s.requests || !s.requests[r].pc.Held? then s
      else
        var n := s.nextCall;
        At(s.(calls := s.calls[n := Call(s.requests[r].key, false)], nextCall := n + 1), r, Dialing(n))
    case Provision(r) =>
      if r !in s.requests || !s.requests[r].pc.Dialing? then s else At(s, r, Ready(s.requests[r].pc.call))
    case Fails(r, why) =>
      if r !in s.requests then s
      else if s.requests[r].pc.Held? then At(s, r, Failing(None, why, false))
      else if s.requests[r].pc.Dialing? then At(s, r, Failing(Some(s.requests[r].pc.call), why, false))
      else s
    case CompleteCall(r, io) =>
      if r !in s.requests || !s.requests[r].pc.Ready? then s
      else
        var q := s.requests[r];
        var written := s.(store := CompleteKey(s.store, q.key, q.fingerprint, Created(q.pc.call)));
        (match io
         case Done => At(written, r, Replied(Replay(Created(q.pc.call))))
         case RaisesBefore => At(s, r, Failing(Some(q.pc.call), Other, false))
         case RaisesAfter => At(written, r, Failing(Some(q.pc.call), Other, true)))
    case MarkFailed(r, ok) =>
      if r !in s.requests || !s.requests[r].pc.Failing? then s
      else
        var pc := s.requests[r].pc;
        if pc.called.Some? && !ok then At(s, r, Gone)
        else
          var marked := if pc.called.Some? && pc.called.value in s.calls
                        then s.(calls := s.calls[pc.called.value := s.calls[pc.called.value].(failed := true)]) else s;
          At(marked, r, if pc.why.Telephony? then Storing(pc.why.message) else Releasing(pc.stored))
    case StoreError(r, io) =>
      if r !in s.requests || !s.requests[r].pc.Storing? then s
      else
        var q := s.requests[r];
        var response := StoredError(502, q.pc.message);
        var written := s.(store := CompleteKey(s.store, q.key, q.fingerprint, response));
        (match io
         case Done => At(written, r, Replied(Replay(response)))
         case RaisesBefore => At(s, r, Gone)
         case RaisesAfter => At(written, r, Gone))
    case Release(r, io) =>
      if r !in s.requests || !s.requests[r].pc.Releasing? then s
      else At(if io.RaisesBefore? then s else s.(store := ReleaseKey(s.store, s.requests[r].key)), r, Gone)
    case Refuse(r) =>
      if r !in s.requests || !s.requests[r].pc.Start? then s else At(s, r, Replied(InProgress))
    case Get(r) => s
  }

  /** The same over the Redis store. */
  function RedisStep(s: System, e: Event): System {
    match e
    case Begin(r) =>
      if r !in s.requests || !s.requests[r].pc.Start? then s
      else
        var (store, acquired) := RedisSet(s.store, s.requests[r].key, s.requests[r].fingerprint);
        At(s.(store := store), r, if acquired then Held else Reading)
    case BeginRaises(r, io) =>
      if r in s.requests && s.requests[r].pc.Reading? then At(s, r, Gone) else Step(s, e)
    case Get(r) =>
      if r !in s.requests || !s.requests[r].pc.Reading? then s
      else At(s, r, Replied(RedisGet(s.store, s.requests[r].key, s.requests[r].fingerprint)))
    case CompleteCall(r, io) =>
      if r !in s.requests || !s.requests[r].pc.Ready? then s
      else
        var q := s.requests[r];
        var written := s.(store := RedisComplete(s.store, q.key, q.fingerprint, Created(q.pc.call)));
        (match io
         case Done => At(written, r, Replied(Replay(Created(q.pc.call))))
         case RaisesBefore => At(s, r, Failing(Some(q.pc.call), Other, false))
         case RaisesAfter => At(written, r, Failing(Some(q.pc.call), Other, true)))
    case StoreError(r, io) =>
      if r !in s.requests || !s.requests[r].pc.Storing? then s
      else
        var q := s.requests[r];
        var response := StoredError(502, q.pc.message);
        var written := s.(store := RedisComplete(s.store, q.key, q.fingerprint, response));
        (match io
         case Done => At(written, r, Replied(Replay(response)))
         case RaisesBefore => At(s, r, Gone)
         case RaisesAfter => At(written, r, Gone))
    case Refuse(r) => s
    case _ => Step(s, e)
  }
}
