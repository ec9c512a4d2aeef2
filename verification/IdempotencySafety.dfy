/**
 * What holds in every interleaving of any number of requests.
 */
module IdempotencySafety {
  import opened Wrappers
  import opened Idempotency

  /** Calls created under a key and not marked failed. */
  function Live(s: System, key: Key): set<Id> {
    set c | c in s.calls && s.calls[c].key == key && !s.calls[c].failed
  }

  function Owned(pc: Pc): set<Id> {
    match pc
    case Dialing(c) => {c}
    case Ready(c) => {c}
    case Failing(called, _, _) => if called.Some? then {called.value} else {}
    case _ => {}
  }

  /** A working request holds the reservation: the entry is its own, still pending unless its own
      `complete` raised after writing; the key's live calls are its own. */
  ghost predicate Holds(s: System, r: Id)
    requires r in s.requests
  {
    var q := s.requests[r];
    && q.key in s.store
    && (s.store[q.key] == Pending(q.fingerprint) ||
        (s.store[q.key].Complete? && s.store[q.key].fingerprint == q.fingerprint
         && ((q.pc.Failing? && q.pc.stored) || (q.pc.Releasing? && q.pc.stored))))
    && Live(s, q.key) <= Owned(q.pc)
    && (q.pc.Failing? && q.pc.stored ==> q.pc.why.Other?)
  }

  predicate Works(s: System, r: Id) {
    r in s.requests && Working(s.requests[r].pc)
  }

  predicate IsLive(s: System, c: Id) {
    c in s.calls && !s.calls[c].failed
  }

  ghost predicate Inv(s: System) {
    && (forall c :: c in s.calls ==> c < s.nextCall)
    && (forall r :: r in s.requests && Working(s.requests[r].pc) ==> Holds(s, r))
    && (forall a, b | Works(s, a) && Works(s, b) && s.requests[a].key == s.requests[b].key :: a == b)
    && (forall c, d | IsLive(s, c) && IsLive(s, d) && s.calls[c].key == s.calls[d].key :: c == d)
    && (forall c :: c in s.calls && !s.calls[c].failed ==> s.calls[c].key in s.store)
  }

  /** Another request's hold is untouched. */
  lemma OtherHolds(s: System, s1: System, a: Id)
    requires a in s.requests && Holds(s, a) && a in s1.requests && s1.requests[a] == s.requests[a]
    requires s.requests[a].key in s1.store && s1.store[s.requests[a].key] == s.store[s.requests[a].key]
    requires Live(s1, s.requests[a].key) <= Live(s, s.requests[a].key)
    ensures Holds(s1, a)
  {
  }

  // One lemma for each kind of step.

  /** A working request moves on without touching store or calls. */
  lemma Moved(s: System, r: Id, pc: Pc)
    requires Inv(s) && r in s.requests && Working(s.requests[r].pc) && (Working(pc) ==> Holds(At(s, r, pc), r))
    ensures Inv(At(s, r, pc))
  {
    var s1 := At(s, r, pc);
    forall a | a in s1.requests && Working(s1.requests[a].pc) ensures Holds(s1, a) {
      if a != r { assert Holds(s, a) && Live(s1, s.requests[a].key) == Live(s, s.requests[a].key); }
    }
  }

  /** A request that is not working stays so. */
  lemma MovedIdle(s: System, r: Id, pc: Pc)
    requires Inv(s) && r in s.requests && !Working(s.requests[r].pc) && !Working(pc)
    ensures Inv(At(s, r, pc))
  {
    var s1 := At(s, r, pc);
    forall a | a in s1.requests && Working(s1.requests[a].pc) ensures Holds(s1, a) {
      assert Holds(s, a) && Live(s1, s.requests[a].key) == Live(s, s.requests[a].key);
    }
  }

  lemma Arrived(s: System, r: Id, key: Key, fingerprint: string)
    requires Inv(s) && r !in s.requests
    ensures Inv(s.(requests := s.requests[r := Request(key, fingerprint, Start)]))
  {
    var s1 := s.(requests := s.requests[r := Request(key, fingerprint, Start)]);
    forall a | a in s1.requests && Working(s1.requests[a].pc) ensures Holds(s1, a) {
      assert Holds(s, a) && Live(s1, s.requests[a].key) == Live(s, s.requests[a].key);
    }
  }

  /** A request acquires a free key: the key has no live call. */
  lemma Acquired(s: System, r: Id)
    requires Inv(s) && r in s.requests && !Working(s.requests[r].pc) && s.requests[r].key !in s.store
    ensures Inv(At(s.(store := s.store[s.requests[r].key := Pending(s.requests[r].fingerprint)]), r, Held))
  {
    var q := s.requests[r];
    var s1 := At(s.(store := s.store[q.key := Pending(q.fingerprint)]), r, Held);
    assert Live(s1, q.key) == {};
    forall a | a in s1.requests && Working(s1.requests[a].pc) ensures Holds(s1, a) {
      if a != r { assert Holds(s, a) && Live(s1, s.requests[a].key) == Live(s, s.requests[a].key); }
    }
  }

  /** A request reserves a free key and is gone: the key stays pending, without live call or holder. */
  lemma Abandoned(s: System, r: Id)
    requires Inv(s) && r in s.requests && !Working(s.requests[r].pc) && s.requests[r].key !in s.store
    ensures Inv(At(s.(store := s.store[s.requests[r].key := Pending(s.requests[r].fingerprint)]), r, Gone))
  {
    var q := s.requests[r];
    var s1 := At(s.(store := s.store[q.key := Pending(q.fingerprint)]), r, Gone);
    forall a | a in s1.requests && Working(s1.requests[a].pc) ensures Holds(s1, a) {
      assert Holds(s, a) && Live(s1, s.requests[a].key) == Live(s, s.requests[a].key);
    }
  }

  lemma CallCreated(s: System, r: Id)
    requires Inv(s) && r in s.requests && s.requests[r].pc.Held?
    ensures Inv(Step(s, CreateCall(r)))
  {
    var s1, key := Step(s, CreateCall(r)), s.requests[r].key;
    assert Holds(s, r) && Live(s, key) == {};
    CreatedLive(s, r);
    forall a | a in s1.requests && Working(s1.requests[a].pc) ensures Holds(s1, a) {
      if a != r { OtherHolds(s, s1, a); }
    }
    CreatedAlone(s, r);
  }

  /** The new call is the only live one of its key. */
  lemma CreatedAlone(s: System, r: Id)
    requires Inv(s) && r in s.requests && Live(s, s.requests[r].key) == {} && s.requests[r].pc.Held?
    ensures var s1 := Step(s, CreateCall(r));
            forall c, d | IsLive(s1, c) && IsLive(s1, d) && s1.calls[c].key == s1.calls[d].key :: c == d
  {
    var s1, key := Step(s, CreateCall(r)), s.requests[r].key;
    forall c, d | IsLive(s1, c) && IsLive(s1, d) && s1.calls[c].key == s1.calls[d].key ensures c == d {
      assert c !in Live(s, key) && d !in Live(s, key);
      assert c == s.nextCall || IsLive(s, c);
    }
  }

  lemma CreatedLive(s: System, r: Id)
    requires Inv(s) && r in s.requests && s.requests[r].pc.Held?
    ensures var s1, key := Step(s, CreateCall(r)), s.requests[r].key;
            && Live(s1, key) == Live(s, key) + {s.nextCall}
            && forall other :: other != key ==> Live(s1, other) == Live(s, other)
  {
  }

  /** The holder writes its response and either is done or raises into its handler. */
  lemma Written(s: System, r: Id, response: Response, pc: Pc)
    requires Inv(s) && r in s.requests && Working(s.requests[r].pc)
    requires !Working(pc) || (pc.Failing? && pc.stored && pc.why.Other? && Owned(s.requests[r].pc) <= Owned(pc))
    ensures Inv(At(s.(store := CompleteKey(s.store, s.requests[r].key, s.requests[r].fingerprint, response)), r, pc))
  {
    var q := s.requests[r];
    var s1 := At(s.(store := CompleteKey(s.store, q.key, q.fingerprint, response)), r, pc);
    assert Holds(s, r);
    forall a | a in s1.requests && Working(s1.requests[a].pc) ensures Holds(s1, a) {
      assert Live(s1, s.requests[a].key) == Live(s, s.requests[a].key);
      if a != r { assert Holds(s, a) && s.requests[a].key != q.key; }
    }
  }

  lemma CallFailed(s: System, r: Id)
    requires Inv(s) && r in s.requests && s.requests[r].pc.Failing?
    ensures Inv(Step(s, MarkFailed(r, true)))
  {
    var q, s1 := s.requests[r], Step(s, MarkFailed(r, true));
    FailedLive(s, r);
    forall a | a in s1.requests && Working(s1.requests[a].pc) ensures Holds(s1, a) {
      assert Holds(s, a);
      if a != r { OtherHolds(s, s1, a); }
    }
  }

  lemma FailedLive(s: System, r: Id)
    requires Inv(s) && r in s.requests && s.requests[r].pc.Failing?
    ensures var s1 := Step(s, MarkFailed(r, true));
            && Live(s1, s.requests[r].key) == {} && (forall key :: Live(s1, key) <= Live(s, key))
            && forall c :: IsLive(s1, c) ==> IsLive(s, c) && s1.calls[c] == s.calls[c]
  {
    var q, s1 := s.requests[r], Step(s, MarkFailed(r, true));
    assert Holds(s, r) && Live(s1, q.key) <= Live(s, q.key);
  }

  lemma Released(s: System, r: Id)
    requires Inv(s) && r in s.requests && s.requests[r].pc.Releasing?
    ensures Inv(At(s.(store := ReleaseKey(s.store, s.requests[r].key)), r, Gone))
  {
    var q := s.requests[r];
    var s1 := At(s.(store := ReleaseKey(s.store, q.key)), r, Gone);
    assert Holds(s, r) && Live(s, q.key) == {};
    forall a | a in s1.requests && Working(s1.requests[a].pc) ensures Holds(s1, a) {
      assert a != r && Holds(s, a) && s.requests[a].key != q.key;
      assert Live(s1, s.requests[a].key) == Live(s, s.requests[a].key);
    }
    forall c | c in s1.calls && !s1.calls[c].failed ensures s1.calls[c].key in s1.store {
      assert c !in Live(s, q.key);
    }
  }

  lemma StepKeepsInv(s: System, e: Event)
    requires Inv(s)
    ensures Inv(Step(s, e))
  {
    match e
    case Arrive(r, key, fingerprint) => if r !in s.requests { Arrived(s, r, key, fingerprint); }
    case Begin(r) => BeginKeepsInv(s, r);
    case BeginRaises(r, io) => RaiseKeepsInv(s, r, io);
    case CreateCall(r) => if r in s.requests && s.requests[r].pc.Held? { CallCreated(s, r); }
    case Provision(r) => ProvisionKeepsInv(s, r);
    case Fails(r, why) => FailKeepsInv(s, r, why);
    case CompleteCall(r, io) => CompleteKeepsInv(s, r, io);
    case MarkFailed(r, ok) => MarkKeepsInv(s, r, ok);
    case StoreError(r, io) => ErrorKeepsInv(s, r, io);
    case Release(r, io) => ReleaseKeepsInv(s, r, io);
    case Refuse(r) => if r in s.requests && s.requests[r].pc.Start? { MovedIdle(s, r, Replied(InProgress)); }
    case Get(r) =>
  }

  lemma BeginKeepsInv(s: System, r: Id)
    requires Inv(s)
    ensures Inv(Step(s, Begin(r)))
  {
    if r in s.requests && s.requests[r].pc.Start? {
      var q := s.requests[r];
      if q.key !in s.store { Acquired(s, r); } else { MovedIdle(s, r, Replied(Read(s.store[q.key], q.fingerprint))); }
    }
  }

  lemma RaiseKeepsInv(s: System, r: Id, io: Io)
    requires Inv(s)
    ensures Inv(Step(s, BeginRaises(r, io)))
  {
    if r in s.requests && s.requests[r].pc.Start? {
      if io.RaisesBefore? || s.requests[r].key in s.store { MovedIdle(s, r, Gone); } else { Abandoned(s, r); }
    }
  }

  lemma ReleaseKeepsInv(s: System, r: Id, io: Io)
    requires Inv(s)
    ensures Inv(Step(s, Release(r, io)))
  {
    if r in s.requests && s.requests[r].pc.Releasing? {
      if io.RaisesBefore? { Moved(s, r, Gone); } else { Released(s, r); }
    }
  }

  lemma ProvisionKeepsInv(s: System, r: Id)
    requires Inv(s)
    ensures Inv(Step(s, Provision(r)))
  {
    if r in s.requests && s.requests[r].pc.Dialing? {
      var pc := Ready(s.requests[r].pc.call);
      assert Holds(s, r);
      SameLive(s, r, pc);
      Moved(s, r, pc);
    }
  }

  lemma FailKeepsInv(s: System, r: Id, why: Failure)
    requires Inv(s)
    ensures Inv(Step(s, Fails(r, why)))
  {
    if r in s.requests && (s.requests[r].pc.Held? || s.requests[r].pc.Dialing?) {
      var pc := Failing(if s.requests[r].pc.Held? then None else Some(s.requests[r].pc.call), why, false);
      assert Holds(s, r);
      SameLive(s, r, pc);
      Moved(s, r, pc);
    }
  }

  lemma CompleteKeepsInv(s: System, r: Id, io: Io)
    requires Inv(s)
    ensures Inv(Step(s, CompleteCall(r, io)))
  {
    if r in s.requests && s.requests[r].pc.Ready? {
      var c := s.requests[r].pc.call;
      if io.RaisesBefore? {
        assert Holds(s, r);
        SameLive(s, r, Failing(Some(c), Other, false));
        Moved(s, r, Failing(Some(c), Other, false));
      } else {
        Written(s, r, Created(c), if io.Done? then Replied(Replay(Created(c))) else Failing(Some(c), Other, true));
      }
    }
  }

  lemma ErrorKeepsInv(s: System, r: Id, io: Io)
    requires Inv(s)
    ensures Inv(Step(s, StoreError(r, io)))
  {
    if r in s.requests && s.requests[r].pc.Storing? {
      var response := StoredError(502, s.requests[r].pc.message);
      if io.RaisesBefore? {
        Moved(s, r, Gone);
      } else {
        Written(s, r, response, if io.Done? then Replied(Replay(response)) else Gone);
      }
    }
  }

  lemma MarkKeepsInv(s: System, r: Id, ok: bool)
    requires Inv(s)
    ensures Inv(Step(s, MarkFailed(r, ok)))
  {
    if r in s.requests && s.requests[r].pc.Failing? {
      if s.requests[r].pc.called.Some? && !ok {
        Moved(s, r, Gone);
      } else {
        CallFailed(s, r);
      }
    }
  }

  lemma SameLive(s: System, r: Id, pc: Pc)
    requires r in s.requests
    ensures forall key :: Live(At(s, r, pc), key) == Live(s, key)
  {
  }

  // ---------------------------------------------------------------------------- over whole runs

  function Run(s: System, events: seq<Event>): System {
    if events == [] then s else Step(Run(s, events[..|events| - 1]), events[|events| - 1])
  }

  const EMPTY := System(map[], map[], map[], 0)

  lemma {:induction false} RunInv(events: seq<Event>)
    ensures Inv(Run(EMPTY, events))
  {
    if events != [] {
      RunInv(events[..|events| - 1]);
      StepKeepsInv(Run(EMPTY, events[..|events| - 1]), events[|events| - 1]);
    }
  }

  /** At most one request holds a key's reservation, and at most one call created under a key is
      not marked failed, in every interleaving of any number of requests. */
  lemma AtMostOneLiveCall(events: seq<Event>, key: Key)
    ensures var s := Run(EMPTY, events);
            && |Live(s, key)| <= 1
            && forall a, b | Works(s, a) && Works(s, b) && s.requests[a].key == s.requests[b].key == key :: a == b
  {
    RunInv(events);
    var s := Run(EMPTY, events);
    if Live(s, key) != {} {
      var c :| c in Live(s, key);
      assert Live(s, key) == {c};
    }
  }

  /** The one way a stored response can disappear: its own writer's `complete` raised after it
      had been written, and the writer now releases the key. */
  ghost predicate Unwrites(s: System, e: Event, key: Key) {
    match e
    case Release(r, io) =>
      !io.RaisesBefore? && r in s.requests && s.requests[r].key == key
      && s.requests[r].pc.Releasing? && s.requests[r].pc.stored
    case _ => false
  }

  /** A stored response stays, identical, through every other step; so every later request with
      the key is answered with it, or with a conflict when its payload differs. */
  lemma StoredStays(s: System, e: Event, key: Key)
    requires Inv(s) && key in s.store && s.store[key].Complete?
    ensures var s1 := Step(s, e);
            if Unwrites(s, e, key) then key !in s1.store else key in s1.store && s1.store[key] == s.store[key]
  {
    if Writes(e) { WritesOwn(s, e, key); } else { StoreKept(s, e, key); }
  }

  /** The steps of a holder that write or release its key. */
  predicate Writes(e: Event) {
    e.CompleteCall? || e.StoreError? || e.Release?
  }

  /** Every other step keeps every entry. */
  lemma StoreKept(s: System, e: Event, key: Key)
    requires key in s.store && !Writes(e)
    ensures key in Step(s, e).store && Step(s, e).store[key] == s.store[key]
  {
  }

  /** A holder writes only over its own reservation, and removes only that or what it wrote. */
  lemma WritesOwn(s: System, e: Event, key: Key)
    requires Inv(s) && key in s.store && Writes(e)
    ensures var s1 := Step(s, e);
            if key !in s1.store then e.Release? && (s.store[key].Complete? ==> Unwrites(s, e, key))
            else s1.store[key].fingerprint == s.store[key].fingerprint
                 && (s.store[key].Complete? ==> s1.store[key] == s.store[key] && !Unwrites(s, e, key))
  {
    match e
    case CompleteCall(r, io) => assert Works(s, r) ==> Holds(s, r);
    case StoreError(r, io) => assert Works(s, r) ==> Holds(s, r);
    case Release(r, io) => assert Works(s, r) ==> Holds(s, r);
  }

  /** While an entry exists its fingerprint never changes: a different payload always conflicts. */
  lemma FingerprintStays(s: System, e: Event, key: Key)
    requires Inv(s) && key in s.store && key in Step(s, e).store
    ensures Step(s, e).store[key].fingerprint == s.store[key].fingerprint
  {
    if Writes(e) { WritesOwn(s, e, key); } else { StoreKept(s, e, key); }
  }

  /** Over any further run in which no writer withdraws it, a stored response is what a request
      with the same payload is answered with, and a different payload conflicts. */
  lemma {:induction false} ReplaysForever(s: System, events: seq<Event>, r: Id)
    requires Inv(s) && r in s.requests && s.requests[r].pc.Start?
    requires s.requests[r].key in s.store && s.store[s.requests[r].key].Complete?
    requires forall i :: 0 <= i < |events| ==>
               !Unwrites(Run(s, events[..i]), events[i], s.requests[r].key) && !Moves(events[i], r)
    ensures var q, later := s.requests[r], Step(Run(s, events), Begin(r));
            && later.store == Run(s, events).store
            && r in later.requests
            && later.requests[r].pc == Replied(if q.fingerprint == s.store[q.key].fingerprint
                                               then Replay(s.store[q.key].response) else Conflict)
  {
    Undisturbed(s, events, r);
  }

  /** The event is a step of this request. */
  predicate Moves(e: Event, r: Id) {
    match e
    case Begin(id) => id == r
    case BeginRaises(id, _) => id == r
    case Refuse(id) => id == r
    case _ => false
  }

  lemma {:induction false} Undisturbed(s: System, events: seq<Event>, r: Id)
    requires Inv(s) && r in s.requests && s.requests[r].pc.Start?
    requires s.requests[r].key in s.store && s.store[s.requests[r].key].Complete?
    requires forall i :: 0 <= i < |events| ==>
               !Unwrites(Run(s, events[..i]), events[i], s.requests[r].key) && !Moves(events[i], r)
    ensures var s1, key := Run(s, events), s.requests[r].key;
            && Inv(s1) && r in s1.requests && s1.requests[r] == s.requests[r]
            && key in s1.store && s1.store[key] == s.store[key]
  {
    if events != [] {
      var n, key := |events| - 1, s.requests[r].key;
      assert forall i :: 0 <= i < n ==> events[..n][i] == events[i] && events[..n][..i] == events[..i];
      Undisturbed(s, events[..n], r);
      var s1 := Run(s, events[..n]);
      StepKeepsInv(s1, events[n]);
      StoredStays(s1, events[n], key);
      Waits(s1, events[n], r);
    }
  }

  lemma Waits(s: System, e: Event, r: Id)
    requires r in s.requests && s.requests[r].pc.Start? && !Moves(e, r)
    ensures r in Step(s, e).requests && Step(s, e).requests[r] == s.requests[r]
  {
  }
}
