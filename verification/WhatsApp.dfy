/**
 * The inbound WhatsApp queue and the turns it writes (apps/api/voiceos_api/repository.py), with
 * the operator's handoff message (apps/api/voiceos_api/routes.py).
 */
module WhatsApp {
  import opened Wrappers

  type Id = nat
  type Time = int

  datatype Status = Pending | Processing | Done | Failed

  datatype Message = Message(provider: string, tenant: nat, call: Id, status: Status, error: Option<string>)

  /** `handoff` is the call's mark that an operator has taken over. */
  datatype Call = Call(tenant: nat, from: string, inProgress: bool, createdAt: Time, handoff: bool)

  datatype Turn = Turn(ordinal: nat, role: string, text: string)

  /** Messages and calls are known by their place in creation order. `numbers` are the active
      integrations, `ready` the tenants whose integration has its secret. */
  datatype State = State(messages: seq<Message>, calls: seq<Call>, turns: map<Id, seq<Turn>>,
                         numbers: map<string, nat>, ready: set<nat>)

  const DAY := 86_400

  function TurnsOf(s: State, call: Id): seq<Turn> {
    if call in s.turns then s.turns[call] else []
  }

  predicate Known(messages: seq<Message>, provider: string) {
    exists i :: 0 <= i < |messages| && messages[i].provider == provider
  }

  /** The first running conversation of the last day with this sender. */
  function Conversation(calls: seq<Call>, tenant: nat, from: string, now: Time): (c: Option<Id>)
    ensures c.Some? ==> c.value < |calls|
  {
    if calls == [] then None
    else
      var n := |calls| - 1;
      var before := Conversation(calls[..n], tenant, from, now);
      var last := calls[n];
      if before.Some? then before
      else if last.tenant == tenant && last.from == from && last.inProgress && last.createdAt >= now - DAY then Some(n)
      else None
  }

  function Ingest(s: State, provider: string, number: string, from: string, now: Time): (r: (State, bool))
    ensures r.1 <==> !Known(s.messages, provider) && number in s.numbers
    ensures !r.1 ==> r.0 == s
  {
    if Known(s.messages, provider) || number !in s.numbers then (s, false)
    else
      var tenant := s.numbers[number];
      var found := Conversation(s.calls, tenant, from, now);
      var calls := if found.Some? then s.calls else s.calls + [Call(tenant, from, true, now, false)];
      var call := if found.Some? then found.value else |s.calls|;
      (s.(calls := calls, messages := s.messages + [Message(provider, tenant, call, Pending, None)]), true)
  }

  predicate Claimable(s: State, m: Message) {
    m.status == Pending && m.tenant in s.ready && m.call < |s.calls|
  }

  /** The messages and what has been claimed after the first `n` were looked at. */
  function ClaimUpTo(s: State, n: nat, limit: nat): (r: (seq<Message>, seq<Id>))
    requires n <= |s.messages|
    ensures |r.0| == |s.messages| && |r.1| <= limit
    ensures forall i :: i in r.1 ==> i < n
  {
    if n == 0 then (s.messages, [])
    else
      var (messages, ids) := ClaimUpTo(s, n - 1, limit);
      var m := s.messages[n - 1];
      if |ids| < limit && Claimable(s, m)
      then (messages[n - 1 := m.(status := Processing)], ids + [n - 1]) else (messages, ids)
  }

  function Claims(s: State, limit: nat): seq<Id> {
    ClaimUpTo(s, |s.messages|, limit).1
  }

  function Claim(s: State, limit: nat): State {
    s.(messages := ClaimUpTo(s, |s.messages|, limit).0)
  }

  /** Exactly the claimed messages change, each of them claimable and now in processing. */
  lemma {:induction false} ClaimUpToMeaning(s: State, n: nat, limit: nat, i: nat)
    requires n <= |s.messages| && i < |s.messages|
    ensures var (messages, ids) := ClaimUpTo(s, n, limit);
            && messages[i] == (if i in ids then s.messages[i].(status := Processing) else s.messages[i])
            && (i in ids ==> i < n && Claimable(s, s.messages[i]))
  {
    if n > 0 { ClaimUpToMeaning(s, n - 1, limit, i); }
  }

  function AddTurn(turns: seq<Turn>, role: string, text: string): seq<Turn> {
    if text == "" then turns else turns + [Turn(|turns|, role, text)]
  }

  /** How a message was answered; an absent text is empty. */
  datatype Reply = Reply(userText: string, agentText: string, failed: bool, error: Option<string>, handoff: bool)

  function HandedOff(calls: seq<Call>, call: Id): seq<Call> {
    if call < |calls| then calls[call := calls[call].(handoff := true)] else calls
  }

  /** The two turns of an answered message, its end, and the handoff when one was asked for. */
  function Complete(s: State, id: Id, reply: Reply): State {
    if id >= |s.messages| then s
    else
      var m := s.messages[id];
      var asked := AddTurn(TurnsOf(s, m.call), "user", reply.userText);
      s.(turns := s.turns[m.call := AddTurn(asked, "agent", reply.agentText)],
         messages := s.messages[id := m.(status := if reply.failed then Failed else Done, error := reply.error)],
         calls := if reply.handoff then HandedOff(s.calls, m.call) else s.calls)
  }

  /** The operator's message, numbered with the count of turns `seen` when the call was read. */
  function Handoff(s: State, call: Id, seen: nat, text: string): State {
    if call >= |s.calls| then s
    else s.(turns := s.turns[call := TurnsOf(s, call) + [Turn(seen, "operator", text)]],
            calls := HandedOff(s.calls, call))
  }

  datatype Event =
    | Ingests(provider: string, number: string, from: string, now: Time)
    | Claiming(limit: nat)
    | Completes(id: Id, reply: Reply)
    | Hands(call: Id, seen: nat, text: string)
    | EndsCall(call: Id)
    | Configures(numbers: map<string, nat>, ready: set<nat>)

  function Step(s: State, e: Event): State {
    match e
    case Ingests(provider, number, from, now) => Ingest(s, provider, number, from, now).0
    case Claiming(limit) => Claim(s, limit)
    case Completes(id, reply) => Complete(s, id, reply)
    case Hands(call, seen, text) => Handoff(s, call, seen, text)
    case EndsCall(call) =>
      if call < |s.calls| then s.(calls := s.calls[call := s.calls[call].(inProgress := false)]) else s
    case Configures(numbers, ready) => s.(numbers := numbers, ready := ready)
  }

  const EMPTY := State([], [], map[], map[], {})

  function Run(events: seq<Event>): State {
    if events == [] then EMPTY else Step(Run(events[..|events| - 1]), events[|events| - 1])
  }

  // ------------------------------------------------------------------- stored and claimed once

  predicate ProvidersDistinct(s: State) {
    forall i, j :: 0 <= i < j < |s.messages| ==> s.messages[i].provider != s.messages[j].provider
  }

  /** Messages are never removed and keep who they are; one that has left the queue stays out. */
  lemma StepKeepsMessages(s: State, e: Event, i: nat)
    requires i < |s.messages|
    ensures i < |Step(s, e).messages|
    ensures var m, m1 := s.messages[i], Step(s, e).messages[i];
            && m1.(status := m.status, error := m.error) == m
            && (m.status != Pending ==> m1.status != Pending && !(e.Claiming? && i in Claims(s, e.limit)))
            && (m.status == Pending ==>
                  (m1.status != Pending <==> (e.Claiming? && i in Claims(s, e.limit)) || (e.Completes? && e.id == i)))
  {
    if e.Claiming? { ClaimUpToMeaning(s, |s.messages|, e.limit, i); }
  }

  /** In every run each provider message id is stored at most once. */
  lemma {:induction false} StoredOnce(events: seq<Event>)
    ensures ProvidersDistinct(Run(events))
  {
    if events != [] {
      var s, e := Run(events[..|events| - 1]), events[|events| - 1];
      StoredOnce(events[..|events| - 1]);
      forall i | 0 <= i < |s.messages|
        ensures i < |Step(s, e).messages| && Step(s, e).messages[i].provider == s.messages[i].provider
      {
        StepKeepsMessages(s, e, i);
      }
    }
  }

  /** How often the message at this place was claimed. */
  function ClaimCount(events: seq<Event>, i: Id): nat {
    if events == [] then 0
    else
      var rest, e := events[..|events| - 1], events[|events| - 1];
      var s := Run(rest);
      ClaimCount(rest, i) + if e.Claiming? && i in Claims(s, e.limit) then 1 else 0
  }

  /** In every run each message is claimed at most once, and not at all while it waits. */
  lemma {:induction false} ClaimedOnce(events: seq<Event>, i: Id)
    ensures ClaimCount(events, i) <= 1
    ensures i >= |Run(events).messages| || Run(events).messages[i].status == Pending ==> ClaimCount(events, i) == 0
  {
    if events != [] {
      var s, e := Run(events[..|events| - 1]), events[|events| - 1];
      ClaimedOnce(events[..|events| - 1], i);
      if i < |s.messages| { StepKeepsMessages(s, e, i); }
    }
  }

  // -------------------------------------------------------------------------- turn ordinals

  predicate Consecutive(turns: seq<Turn>) {
    forall k :: 0 <= k < |turns| ==> turns[k].ordinal == k
  }

  /** A handoff is stale when turns were added after the call was read. */
  predicate Stale(s: State, e: Event, call: Id) {
    e.Hands? && e.call == call && call < |s.calls| && e.seen != |TurnsOf(s, call)|
  }

  predicate AnyStale(events: seq<Event>, call: Id) {
    exists i :: 0 <= i < |events| && Stale(Run(events[..i]), events[i], call)
  }

  lemma StepOrdinals(s: State, e: Event, call: Id)
    ensures Consecutive(TurnsOf(Step(s, e), call)) <==> Consecutive(TurnsOf(s, call)) && !Stale(s, e, call)
  {
    match e
    case Completes(id, reply) =>
      if id < |s.messages| && s.messages[id].call == call {
        var once := AddTurn(TurnsOf(s, call), "user", reply.userText);
        AddTurnOrdinals(TurnsOf(s, call), "user", reply.userText);
        AddTurnOrdinals(once, "agent", reply.agentText);
      }
    case Hands(c, seen, text) =>
      if c == call && call < |s.calls| { AppendOrdinals(TurnsOf(s, call), Turn(seen, "operator", text)); }
    case _ =>
  }

  lemma AppendOrdinals(turns: seq<Turn>, turn: Turn)
    ensures Consecutive(turns + [turn]) <==> Consecutive(turns) && turn.ordinal == |turns|
  {
    var all := turns + [turn];
    assert all[|turns|] == turn && forall k :: 0 <= k < |turns| ==> all[k] == turns[k];
  }

  lemma AddTurnOrdinals(turns: seq<Turn>, role: string, text: string)
    ensures Consecutive(AddTurn(turns, role, text)) <==> Consecutive(turns)
  {
    AppendOrdinals(turns, Turn(|turns|, role, text));
  }

  lemma AnyStaleStep(rest: seq<Event>, e: Event, call: Id)
    ensures AnyStale(rest + [e], call) <==> AnyStale(rest, call) || Stale(Run(rest), e, call)
  {
    var all := rest + [e];
    assert all[..|rest|] == rest && all[|rest|] == e;
    assert forall i :: 0 <= i < |rest| ==> all[..i] == rest[..i] && all[i] == rest[i];
    if AnyStale(rest, call) {
      var i :| 0 <= i < |rest| && Stale(Run(rest[..i]), rest[i], call);
      assert Stale(Run(all[..i]), all[i], call);
    }
    if Stale(Run(rest), e, call) { assert Stale(Run(all[..|rest|]), all[|rest|], call); }
  }

  /** A call's turns are numbered exactly 0 to n - 1 if and only if no operator message was ever
      written with a stale count: run one at a time, completions and handoffs keep the numbering. */
  lemma {:induction false} OrdinalsConsecutive(events: seq<Event>, call: Id)
    ensures Consecutive(TurnsOf(Run(events), call)) <==> !AnyStale(events, call)
  {
    if events != [] {
      var rest, e := events[..|events| - 1], events[|events| - 1];
      assert events == rest + [e];
      OrdinalsConsecutive(rest, call);
      StepOrdinals(Run(rest), e, call);
      AnyStaleStep(rest, e, call);
    }
  }

  // -------------------------------------------------------------------------- the repository

  class WhatsAppRepository {
    var messages: seq<Message>
    var calls: seq<Call>
    var turns: map<Id, seq<Turn>>
    var numbers: map<string, nat>
    var ready: set<nat>

    ghost function Snapshot(): State reads this {
      State(messages, calls, turns, numbers, ready)
    }

    constructor ()
      ensures Snapshot() == EMPTY
    {
      messages, calls, turns, numbers, ready := [], [], map[], map[], {};
    }

    method IngestMessage(provider: string, number: string, from: string, now: Time) returns (stored: bool)
      modifies this
      ensures (Snapshot(), stored) == Ingest(old(Snapshot()), provider, number, from, now)
    {
      var i := 0;
      while i < |messages|
        invariant 0 <= i <= |messages| && Snapshot() == old(Snapshot())
        invariant forall k :: 0 <= k < i ==> messages[k].provider != provider
      {
        if messages[i].provider == provider {
          return false;
        }
        i := i + 1;
      }
      if number !in numbers {
        return false;
      }
      var tenant := numbers[number];
      var found := Conversation(calls, tenant, from, now);
      var call := if found.Some? then found.value else |calls|;
      if found.None? {
        calls := calls + [Call(tenant, from, true, now, false)];
      }
      messages := messages + [Message(provider, tenant, call, Pending, None)];
      return true;
    }

    method ClaimMessages(limit: nat) returns (ids: seq<Id>)
      modifies this
      ensures ids == Claims(old(Snapshot()), limit)
      ensures Snapshot() == Claim(old(Snapshot()), limit)
    {
      ghost var s := Snapshot();
      ids := [];
      var i := 0;
      while i < |messages|
        invariant 0 <= i <= |messages| == |s.messages|
        invariant Snapshot() == s.(messages := messages)
        invariant (messages, ids) == ClaimUpTo(s, i, limit)
        invariant messages[i..] == s.messages[i..]
      {
        var m := messages[i];
        assert m == messages[i..][0] == s.messages[i..][0];
        if |ids| < limit && m.status == Pending && m.tenant in ready && m.call < |calls| {
          messages := messages[i := m.(status := Processing)];
          ids := ids + [i];
        }
        i := i + 1;
      }
    }

    method CompleteMessage(id: Id, reply: Reply)
      modifies this
      ensures Snapshot() == Complete(old(Snapshot()), id, reply)
    {
      if id >= |messages| {
        return;
      }
      var m := messages[id];
      var added := if m.call in turns then turns[m.call] else [];
      if reply.userText != "" {
        added := added + [Turn(|added|, "user", reply.userText)];
      }
      if reply.agentText != "" {
        added := added + [Turn(|added|, "agent", reply.agentText)];
      }
      turns := turns[m.call := added];
      messages := messages[id := m.(status := if reply.failed then Failed else Done, error := reply.error)];
      if reply.handoff && m.call < |calls| {
        calls := calls[m.call := calls[m.call].(handoff := true)];
      }
    }
  }
}
