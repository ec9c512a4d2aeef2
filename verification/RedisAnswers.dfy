/**
 * What requests over Redis are answered, against what the in-memory store would answer.
 */
module RedisAnswers {
  import opened Wrappers
  import opened Idempotency
  import opened IdempotencySafety
  import opened IdempotencyRedis

  // ------------------------------------------------------------------- when a key has vanished

  /** The GET of a request finds the key gone that its SET found taken. */
  predicate Vanished(s: System, e: Event) {
    e.Get? && e.r in s.requests && s.requests[e.r].pc.Reading? && s.requests[e.r].key !in s.store
  }

  lemma MemoryEventsSnoc(s: System, rest: seq<Event>, e: Event)
    ensures MemoryEvents(s, rest + [e]) == MemoryEvents(s, rest) + [MemoryEvent(RedisRun(s, rest), e)]
  {
    assert (rest + [e])[..|rest|] == rest;
  }

  lemma {:induction false} MemoryEventAt(s: System, events: seq<Event>, i: nat)
    requires i < |events|
    ensures MemoryEvents(s, events)[i] == MemoryEvent(RedisRun(s, events[..i]), events[i])
  {
    var n := |events| - 1;
    var rest, last := events[..n], events[n];
    assert events == rest + [last];
    MemoryEventsSnoc(s, rest, last);
    if i < n {
      MemoryEventAt(s, rest, i);
      assert rest[..i] == events[..i];
    }
  }

  predicate RefusesAt(events: seq<Event>, i: nat) {
    i < |events| && MemoryEvents(EMPTY, events)[i].Refuse?
  }

  predicate VanishesAt(events: seq<Event>, i: nat) {
    i < |events| && Vanished(RedisRun(EMPTY, events[..i]), events[i])
  }

  lemma RefusesWhenVanished(s: System, e: Event)
    ensures MemoryEvent(s, e).Refuse? <==> Vanished(s, e)
  {
  }

  lemma RefusesAtVanished(events: seq<Event>, i: nat)
    ensures RefusesAt(events, i) <==> VanishesAt(events, i)
  {
    if i < |events| {
      MemoryEventAt(EMPTY, events, i);
      RefusesWhenVanished(RedisRun(EMPTY, events[..i]), events[i]);
    }
  }

  /** The added move is needed exactly when a key vanishes: a run in which none does is a run of
      the in-memory store's own steps. */
  lemma RefusesExactly(events: seq<Event>)
    ensures (exists i: nat :: RefusesAt(events, i)) <==> (exists i: nat :: VanishesAt(events, i))
  {
    forall i: nat ensures RefusesAt(events, i) <==> VanishesAt(events, i) {
      RefusesAtVanished(events, i);
    }
  }

  // --------------------------------------------------- what holds of memory carries over, by step

  lemma SameUnwrites(s: System, e: Event, key: Key)
    ensures Unwrites(Abs(s), MemoryEvent(s, e), key) <==> Unwrites(s, e, key)
  {
  }

  lemma RedisKeepsInv(s: System, e: Event)
    requires Inv(Abs(s))
    ensures Inv(Abs(RedisStep(s, e)))
  {
    StepRefines(s, e);
    StepKeepsInv(Abs(s), MemoryEvent(s, e));
  }

  lemma RedisFingerprintStays(s: System, e: Event, key: Key)
    requires Inv(Abs(s)) && key in s.store && key in RedisStep(s, e).store
    ensures RedisStep(s, e).store[key].fingerprint == s.store[key].fingerprint
  {
    StepRefines(s, e);
    FingerprintStays(Abs(s), MemoryEvent(s, e), key);
  }

  lemma RedisStoredStays(s: System, e: Event, key: Key)
    requires Inv(Abs(s)) && key in s.store && s.store[key].Complete?
    ensures var s1 := RedisStep(s, e);
            if Unwrites(s, e, key) then key !in s1.store else key in s1.store && s1.store[key] == s.store[key]
  {
    StepRefines(s, e);
    SameUnwrites(s, e, key);
    StoredStays(Abs(s), MemoryEvent(s, e), key);
  }

  // ------------------------------------------------------------------------- replays over Redis

  predicate RedisMoves(e: Event, r: Id) {
    match e
    case Begin(id) => id == r
    case BeginRaises(id, _) => id == r
    case Get(id) => id == r
    case _ => false
  }

  predicate Between(pc: Pc) {
    pc.Start? || pc.Reading?
  }

  lemma RedisWaits(s: System, e: Event, r: Id)
    requires r in s.requests && Between(s.requests[r].pc) && !RedisMoves(e, r)
    ensures r in RedisStep(s, e).requests && RedisStep(s, e).requests[r] == s.requests[r]
  {
    if !e.Begin? && !e.Get? && !e.CompleteCall? && !e.StoreError? && !e.Refuse? { MemoryWaits(s, e, r); }
  }

  lemma MemoryWaits(s: System, e: Event, r: Id)
    requires r in s.requests && Between(s.requests[r].pc) && !RedisMoves(e, r)
    requires !e.Begin? && !e.Get? && !e.CompleteCall? && !e.StoreError? && !e.Refuse?
    ensures r in Step(s, e).requests && Step(s, e).requests[r] == s.requests[r]
  {
  }

  /** No event of the run is a step of the request or withdraws the key's response. */
  ghost predicate Quiet(s: System, events: seq<Event>, r: Id, key: Key) {
    forall i :: 0 <= i < |events| ==> !RedisMoves(events[i], r) && !Unwrites(RedisRun(s, events[..i]), events[i], key)
  }

  lemma QuietPrefix(s: System, events: seq<Event>, r: Id, key: Key)
    requires events != [] && Quiet(s, events, r, key)
    ensures Quiet(s, events[..|events| - 1], r, key)
  {
    var n := |events| - 1;
    assert forall i :: 0 <= i < n ==> events[..n][i] == events[i] && events[..n][..i] == events[..i];
  }

  lemma {:induction false} RedisUndisturbed(s: System, events: seq<Event>, r: Id, key: Key)
    requires Inv(Abs(s)) && r in s.requests && Between(s.requests[r].pc) && Quiet(s, events, r, key)
    requires key in s.store && s.store[key].Complete?
    ensures var s1 := RedisRun(s, events);
            && Inv(Abs(s1)) && r in s1.requests && s1.requests[r] == s.requests[r]
            && key in s1.store && s1.store[key] == s.store[key]
  {
    if events != [] {
      var n := |events| - 1;
      var s1 := RedisRun(s, events[..n]);
      QuietPrefix(s, events, r, key);
      RedisUndisturbed(s, events[..n], r, key);
      RedisKeepsInv(s1, events[n]);
      RedisStoredStays(s1, events[n], key);
      RedisWaits(s1, events[n], r);
    }
  }

  function Expected(entry: Entry, fingerprint: string): Answer
    requires entry.Complete?
  {
    if fingerprint == entry.fingerprint then Replay(entry.response) else Conflict
  }

  /** Over Redis too: however long a request waits before its SET and between SET and GET, once a
      response is stored and not withdrawn the request is answered with it, or with a conflict. */
  lemma RedisReplaysForever(s: System, before: seq<Event>, between: seq<Event>, r: Id)
    requires Inv(Abs(s)) && r in s.requests && s.requests[r].pc.Start?
    requires s.requests[r].key in s.store && s.store[s.requests[r].key].Complete?
    requires Quiet(s, before, r, s.requests[r].key)
    requires Quiet(RedisStep(RedisRun(s, before), Begin(r)), between, r, s.requests[r].key)
    ensures var s1 := RedisStep(RedisRun(RedisStep(RedisRun(s, before), Begin(r)), between), Get(r));
            && r in s1.requests
            && s1.requests[r].pc == Replied(Expected(s.store[s.requests[r].key], s.requests[r].fingerprint))
  {
    var key := s.requests[r].key;
    var waiting := RedisRun(s, before);
    RedisUndisturbed(s, before, r, key);
    var reading := RedisStep(waiting, Begin(r));
    RedisKeepsInv(waiting, Begin(r));
    RedisUndisturbed(reading, between, r, key);
  }

  // ----------------------------------------------------------- answers between the two commands

  /** The store after the first `i` events. */
  function StoreAt(events: seq<Event>, i: nat): Store
    requires i <= |events|
  {
    RedisRun(EMPTY, events[..i]).store
  }

  /** Event `b` is the SET of request `q`, which finds the key taken, and event `j` its GET. */
  ghost predicate Commands(events: seq<Event>, b: nat, j: nat, r: Id, q: Request) {
    && b < j < |events| && events[b] == Begin(r) && events[j] == Get(r)
    && q.pc.Start? && q.key in StoreAt(events, b)
    && r in RedisRun(EMPTY, events[..b]).requests && RedisRun(EMPTY, events[..b]).requests[r] == q
    && r in RedisRun(EMPTY, events[..j]).requests && RedisRun(EMPTY, events[..j]).requests[r] == q.(pc := Reading)
  }

  lemma ReadingBefore(s: System, e: Event, r: Id)
    requires r in RedisStep(s, e).requests && RedisStep(s, e).requests[r].pc.Reading?
    ensures r in s.requests && s.requests[r].(pc := Reading) == RedisStep(s, e).requests[r]
    ensures s.requests[r].pc.Reading? || (e == Begin(r) && s.requests[r].pc.Start? && s.requests[r].key in s.store)
  {
    match e
    case Begin(_) =>
    case Get(_) =>
    case BeginRaises(_, _) =>
    case _ => NotReading(s, e, r);
  }

  lemma NotReading(s: System, e: Event, r: Id)
    requires !e.Begin? && !e.Get? && !e.BeginRaises?
    requires r in RedisStep(s, e).requests && RedisStep(s, e).requests[r].pc.Reading?
    ensures r in s.requests && s.requests[r] == RedisStep(s, e).requests[r]
  {
  }

  /** Every request between its commands has had its SET. */
  lemma {:induction false} FindSet(events: seq<Event>, r: Id) returns (b: nat)
    requires r in RedisRun(EMPTY, events).requests && RedisRun(EMPTY, events).requests[r].pc.Reading?
    ensures b < |events| && events[b] == Begin(r)
    ensures var s := RedisRun(EMPTY, events[..b]);
            && r in s.requests && s.requests[r] == RedisRun(EMPTY, events).requests[r].(pc := Start)
            && s.requests[r].key in s.store
  {
    var n := |events| - 1;
    var s := RedisRun(EMPTY, events[..n]);
    ReadingBefore(s, events[n], r);
    if s.requests[r].pc.Reading? {
      b := FindSet(events[..n], r);
      assert events[..n][..b] == events[..b];
    } else {
      b := n;
    }
  }

  /** What the in-memory `reserve` would answer request `q` after the first `i` events. */
  function MemoryAnswer(events: seq<Event>, i: nat, q: Request): Answer
    requires i <= |events|
  {
    ReserveKey(StoreAt(events, i), q.key, q.fingerprint).1
  }

  predicate PendingFor(store: Store, q: Request) {
    q.key in store && store[q.key] == Pending(q.fingerprint)
  }

  predicate IsReply(s: System, r: Id, answer: Answer) {
    r in s.requests && s.requests[r].pc == Replied(answer)
  }

  /** The request's answer after its GET. */
  lemma AnswerAt(events: seq<Event>, b: nat, j: nat, r: Id, q: Request)
    requires Commands(events, b, j, r, q)
    ensures IsReply(RedisRun(EMPTY, events[..j + 1]), r, RedisGet(StoreAt(events, j), q.key, q.fingerprint))
  {
    assert events[..j + 1][..j] == events[..j];
  }

  /** What request `r` was answered at the GET is an answer of the in-memory `reserve`. */
  ghost predicate AnsweredLikeMemory(events: seq<Event>, b: nat, j: nat, r: Id, q: Request)
    requires b <= j < |events|
  {
    exists i :: b <= i <= j && IsReply(RedisRun(EMPTY, events[..j + 1]), r, MemoryAnswer(events, i, q))
  }

  /** In every run: the answer is one the in-memory store would give at some moment from the SET to
      the GET exactly when the key has not vanished, or was seen pending with this payload. */
  lemma AnswerLinearizes(events: seq<Event>, b: nat, j: nat, r: Id, q: Request)
    requires Commands(events, b, j, r, q)
    ensures AnsweredLikeMemory(events, b, j, r, q)
            <==> (q.key in StoreAt(events, j) || exists i :: b <= i <= j && PendingFor(StoreAt(events, i), q))
  {
    AnswerAt(events, b, j, r, q);
    if q.key in StoreAt(events, j) {
      assert MemoryAnswer(events, j, q) == RedisGet(StoreAt(events, j), q.key, q.fingerprint);
    } else {
      forall i | b <= i <= j ensures MemoryAnswer(events, i, q) == InProgress <==> PendingFor(StoreAt(events, i), q) {
      }
    }
  }

  // --------------------------------------------------------- a condition on the clients and Redis

  /** Every request with a key sends the key's one payload. */
  ghost predicate OnePayload(events: seq<Event>, payload: Key -> string) {
    forall e :: e in events && e.Arrive? ==> e.fingerprint == payload(e.key)
  }

  /** No stored response of this key is withdrawn. */
  ghost predicate NoneWithdrawn(events: seq<Event>, key: Key) {
    forall i :: 0 <= i < |events| ==> !Unwrites(RedisRun(EMPTY, events[..i]), events[i], key)
  }

  ghost predicate Payloads(s: System, payload: Key -> string) {
    && (forall r :: r in s.requests ==> s.requests[r].fingerprint == payload(s.requests[r].key))
    && (forall key :: key in s.store ==> s.store[key].fingerprint == payload(key))
  }

  lemma StepKeepsPayloads(s: System, e: Event, payload: Key -> string)
    requires Payloads(s, payload) && (e.Arrive? ==> e.fingerprint == payload(e.key))
    ensures Payloads(RedisStep(s, e), payload)
  {
    var s1 := RedisStep(s, e);
    forall r | r in s1.requests ensures s1.requests[r].fingerprint == payload(s1.requests[r].key) {
      RequestsKept(s, e, r);
    }
    forall key | key in s1.store ensures s1.store[key].fingerprint == payload(key) {
      EntriesOwn(s, e, key);
    }
  }

  /** A step never changes what a request asks for. */
  lemma RequestsKept(s: System, e: Event, r: Id)
    requires r in RedisStep(s, e).requests
    ensures r in s.requests ==>
              RedisStep(s, e).requests[r].key == s.requests[r].key
                && RedisStep(s, e).requests[r].fingerprint == s.requests[r].fingerprint
    ensures r !in s.requests ==>
              e.Arrive? && RedisStep(s, e).requests[r].key == e.key
                && RedisStep(s, e).requests[r].fingerprint == e.fingerprint
  {
    if e.Begin? || e.Get? || e.CompleteCall? || e.StoreError? {
      CommandKeeps(s, e, r);
    } else if r in Step(s, e).requests {
      MemoryKeeps(s, e, r);
    }
  }

  lemma CommandKeeps(s: System, e: Event, r: Id)
    requires e.Begin? || e.Get? || e.CompleteCall? || e.StoreError?
    requires r in RedisStep(s, e).requests
    ensures r in s.requests
    ensures RedisStep(s, e).requests[r].key == s.requests[r].key
    ensures RedisStep(s, e).requests[r].fingerprint == s.requests[r].fingerprint
  {
  }

  lemma MemoryKeeps(s: System, e: Event, r: Id)
    requires r in Step(s, e).requests
    ensures r in s.requests ==>
              Step(s, e).requests[r].key == s.requests[r].key
                && Step(s, e).requests[r].fingerprint == s.requests[r].fingerprint
    ensures r !in s.requests ==>
              e.Arrive? && Step(s, e).requests[r].key == e.key && Step(s, e).requests[r].fingerprint == e.fingerprint
  {
  }

  /** An entry's fingerprint is the old one or that of a request with its key. */
  lemma EntriesOwn(s: System, e: Event, key: Key)
    requires key in RedisStep(s, e).store
    ensures var f := RedisStep(s, e).store[key].fingerprint;
            (key in s.store && s.store[key].fingerprint == f)
            || exists r :: r in s.requests && s.requests[r].key == key && s.requests[r].fingerprint == f
  {
  }

  lemma {:induction false} RunKeepsPayloads(events: seq<Event>, payload: Key -> string)
    requires OnePayload(events, payload)
    ensures Payloads(RedisRun(EMPTY, events), payload)
  {
    if events != [] {
      RunKeepsPayloads(events[..|events| - 1], payload);
      StepKeepsPayloads(RedisRun(EMPTY, events[..|events| - 1]), events[|events| - 1], payload);
    }
  }

  predicate HasEntry(store: Store, key: Key, entry: Entry) {
    key in store && store[key] == entry
  }

  lemma EntryStep(events: seq<Event>, j: nat, key: Key, entry: Entry)
    requires j < |events| && NoneWithdrawn(events, key) && HasEntry(StoreAt(events, j), key, entry) && entry.Complete?
    ensures HasEntry(StoreAt(events, j + 1), key, entry)
  {
    assert events[..j + 1][..j] == events[..j];
    RunRefines(events[..j]);
    RedisStoredStays(RedisRun(EMPTY, events[..j]), events[j], key);
  }

  lemma {:induction false} Persists(stores: seq<Store>, b: nat, j: nat, key: Key, entry: Entry)
    requires b <= j < |stores| && HasEntry(stores[b], key, entry)
    requires forall i :: b <= i < j && HasEntry(stores[i], key, entry) ==> HasEntry(stores[i + 1], key, entry)
    ensures HasEntry(stores[j], key, entry)
  {
    if b < j { Persists(stores, b, j - 1, key, entry); }
  }

  /** A response stored after `b` events is still there after `j`. */
  lemma EntryStays(events: seq<Event>, b: nat, j: nat, key: Key, entry: Entry)
    requires b <= j <= |events| && NoneWithdrawn(events, key) && HasEntry(StoreAt(events, b), key, entry)
    requires entry.Complete?
    ensures HasEntry(StoreAt(events, j), key, entry)
  {
    var stores := seq(|events| + 1, i requires 0 <= i <= |events| => StoreAt(events, i));
    forall i | b <= i < j && HasEntry(stores[i], key, entry) ensures HasEntry(stores[i + 1], key, entry) {
      EntryStep(events, i, key, entry);
    }
    Persists(stores, b, j, key, entry);
  }

  /** With one payload per key and no withdrawn response, every answer over Redis is one the
      in-memory `reserve` gives between the request's SET and its GET. */
  lemma AnswersAreMemoryAnswers(events: seq<Event>, payload: Key -> string, j: nat, r: Id) returns (b: nat, q: Request)
    requires OnePayload(events, payload) && j < |events| && events[j] == Get(r)
    requires r in RedisRun(EMPTY, events[..j]).requests && RedisRun(EMPTY, events[..j]).requests[r].pc.Reading?
    requires NoneWithdrawn(events, RedisRun(EMPTY, events[..j]).requests[r].key)
    ensures Commands(events, b, j, r, q) && AnsweredLikeMemory(events, b, j, r, q)
  {
    b := FindSet(events[..j], r);
    assert events[..j][..b] == events[..b];
    q := RedisRun(EMPTY, events[..b]).requests[r];
    AnswerLinearizes(events, b, j, r, q);
    RunKeepsPayloads(events[..b], payload);
    if StoreAt(events, b)[q.key].Complete? {
      EntryStays(events, b, j, q.key, StoreAt(events, b)[q.key]);
    } else {
      assert PendingFor(StoreAt(events, b), q);
    }
  }

  /** No request remembers a response that was written although its `complete` raised. */
  ghost predicate NothingStored(s: System) {
    forall r :: r in s.requests ==> !Stored(s.requests[r].pc)
  }

  predicate Stored(pc: Pc) {
    (pc.Failing? && pc.stored) || (pc.Releasing? && pc.stored)
  }

  predicate Clean(e: Event) {
    match e
    case CompleteCall(_, io) => !io.RaisesAfter?
    case _ => true
  }

  lemma StepStoresNothing(s: System, e: Event)
    requires NothingStored(s) && Clean(e)
    ensures NothingStored(RedisStep(s, e)) && forall key :: !Unwrites(s, e, key)
  {
  }

  lemma {:induction false} RunStoresNothing(events: seq<Event>)
    requires forall e :: e in events ==> Clean(e)
    ensures NothingStored(RedisRun(EMPTY, events))
  {
    if events != [] {
      RunStoresNothing(events[..|events| - 1]);
      StepStoresNothing(RedisRun(EMPTY, events[..|events| - 1]), events[|events| - 1]);
    }
  }

  /** No response is withdrawn when no `complete` raises after it has written. */
  lemma CleanWithdrawsNone(events: seq<Event>, key: Key)
    requires forall e :: e in events ==> Clean(e)
    ensures NoneWithdrawn(events, key)
  {
    forall i | 0 <= i < |events| ensures !Unwrites(RedisRun(EMPTY, events[..i]), events[i], key) {
      RunStoresNothing(events[..i]);
      StepStoresNothing(RedisRun(EMPTY, events[..i]), events[i]);
    }
  }
}
