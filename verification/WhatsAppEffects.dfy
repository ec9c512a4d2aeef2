/**
 * What happens to every message of the WhatsApp queue, and what is said in its conversation.
 */
module WhatsAppEffects {
  import opened Wrappers
  import opened WhatsApp

  /** Call `c` is a running conversation with this sender that was begun within the last day. */
  predicate IsRunning(calls: seq<Call>, c: int, tenant: nat, from: string, now: Time) {
    0 <= c < |calls| && calls[c].tenant == tenant && calls[c].from == from && calls[c].inProgress
    && now - calls[c].createdAt <= 24 * 3600
  }

  lemma {:induction false} ConversationExactly(calls: seq<Call>, tenant: nat, from: string, now: Time)
    ensures match Conversation(calls, tenant, from, now)
            case Some(c) =>
              && IsRunning(calls, c, tenant, from, now)
              && forall d :: 0 <= d < c ==> !IsRunning(calls, d, tenant, from, now)
            case None => forall d :: 0 <= d < |calls| ==> !IsRunning(calls, d, tenant, from, now)
  {
    if calls != [] {
      var n := |calls| - 1;
      ConversationExactly(calls[..n], tenant, from, now);
      assert forall d :: 0 <= d < n ==>
               IsRunning(calls[..n], d, tenant, from, now) == IsRunning(calls, d, tenant, from, now);
    }
  }

  /** A message that is known, or sent to no active number, changes nothing. Any other is put, as
      pending, at the end of the queue, into the first running conversation with its sender, or
      into a new one when there is none. */
  lemma IngestEffects(s: State, provider: string, number: string, from: string, now: Time)
    ensures var (s1, stored) := Ingest(s, provider, number, from, now);
            var known := exists i :: 0 <= i < |s.messages| && s.messages[i].provider == provider;
            && (stored <==> !known && number in s.numbers) && (!stored ==> s1 == s)
            && (stored ==>
                  var tenant := s.numbers[number];
                  && s1 == s.(messages := s1.messages, calls := s1.calls)
                  && |s1.messages| == |s.messages| + 1 && s1.messages[..|s.messages|] == s.messages
                  && var m := s1.messages[|s.messages|];
                  && m == Message(provider, tenant, m.call, Pending, None)
                  && IsConversation(s.calls, s1.calls, m.call, tenant, from, now))
  {
    ConversationExactly(s.calls, if number in s.numbers then s.numbers[number] else 0, from, now);
  }

  ghost predicate IsConversation(calls: seq<Call>, calls1: seq<Call>, c: Id, tenant: nat, from: string, now: Time) {
    if exists d :: IsRunning(calls, d, tenant, from, now)
    then calls1 == calls && IsRunning(calls, c, tenant, from, now)
         && forall d :: 0 <= d < c ==> !IsRunning(calls, d, tenant, from, now)
    else calls1 == calls + [Call(tenant, from, true, now, false)] && c == |calls|
  }

  /** Pending, of a tenant whose integration has its secret, and of a call that exists. */
  predicate IsClaimable(s: State, i: int)
    requires 0 <= i < |s.messages|
  {
    s.messages[i].status == Pending && s.messages[i].tenant in s.ready && s.messages[i].call < |s.calls|
  }

  lemma NextClaim(s: State, n: nat, limit: nat) returns (before: seq<Id>, ids: seq<Id>)
    requires n < |s.messages|
    ensures before == ClaimUpTo(s, n, limit).1 && ids == ClaimUpTo(s, n + 1, limit).1
    ensures ids == before + if |before| < limit && IsClaimable(s, n) then [n] else []
    ensures |before| <= limit && forall k :: 0 <= k < |before| ==> before[k] < n
  {
    before, ids := ClaimUpTo(s, n, limit).1, ClaimUpTo(s, n + 1, limit).1;
    forall k | 0 <= k < |before| ensures before[k] < n {
      assert before[k] in before;
    }
  }

  predicate Ascending(ids: seq<Id>) {
    forall j, k :: 0 <= j < k < |ids| ==> ids[j] < ids[k]
  }

  /** A claimable message among the first `n` is left out only after the limit was reached. */
  predicate LeftOut(s: State, n: nat, limit: nat, ids: seq<Id>)
    requires n <= |s.messages|
  {
    forall i: nat :: i < n && IsClaimable(s, i) && i !in ids ==>
      |ids| == limit && forall k :: 0 <= k < |ids| ==> ids[k] < i
  }

  lemma {:induction false} ClaimedInOrder(s: State, n: nat, limit: nat)
    requires n <= |s.messages|
    ensures Ascending(ClaimUpTo(s, n, limit).1) && LeftOut(s, n, limit, ClaimUpTo(s, n, limit).1)
  {
    if n > 0 {
      ClaimedInOrder(s, n - 1, limit);
      var before, ids := NextClaim(s, n - 1, limit);
      forall i: nat | i < n && IsClaimable(s, i) && i !in ids
        ensures |ids| == limit && forall k :: 0 <= k < |ids| ==> ids[k] < i
      {
        assert i !in before;
      }
    }
  }

  /** The first claimable messages, up to the limit, are put into processing; nothing else changes. */
  lemma ClaimEffects(s: State, limit: nat, i: nat)
    requires i < |s.messages|
    ensures var s1, ids := Claim(s, limit), Claims(s, limit);
            && s1 == s.(messages := s1.messages) && |s1.messages| == |s.messages| && |ids| <= limit
            && s1.messages[i] == (if i in ids then s.messages[i].(status := Processing) else s.messages[i])
            && (i in ids ==> IsClaimable(s, i))
            && (IsClaimable(s, i) && i !in ids ==> |ids| == limit && forall k :: 0 <= k < |ids| ==> ids[k] < i)
            && Ascending(ids)
  {
    ClaimUpToMeaning(s, |s.messages|, limit, i);
    ClaimedInOrder(s, |s.messages|, limit);
  }

  /** Completing adds to the message's conversation first what the user said and then what the
      agent said, each only if there is such a text, numbered on; ends the message with its error;
      and marks the call when it is handed over. Nothing else changes. */
  lemma CompletionEffects(s: State, id: Id, reply: Reply)
    ensures id >= |s.messages| ==> Complete(s, id, reply) == s
    ensures id < |s.messages| ==>
              var s1, m, call := Complete(s, id, reply), s.messages[id], s.messages[id].call;
              var before, n := TurnsOf(s, call), |TurnsOf(s, call)|;
              && s1.messages
                 == s.messages[id := m.(status := if reply.failed then Failed else Done, error := reply.error)]
              && (forall c :: c != call ==> TurnsOf(s1, c) == TurnsOf(s, c))
              && TurnsOf(s1, call)
                 == before
                    + (if reply.userText != "" then [Turn(n, "user", reply.userText)] else [])
                    + (if reply.agentText == "" then []
                       else [Turn(if reply.userText != "" then n + 1 else n, "agent", reply.agentText)])
              && s1.numbers == s.numbers && s1.ready == s.ready && |s1.calls| == |s.calls|
              && forall c :: 0 <= c < |s.calls| ==>
                   s1.calls[c] == if reply.handoff && c == call then s.calls[c].(handoff := true) else s.calls[c]
  {
  }

  /** The operator's message is added to the conversation, and the call is marked. */
  lemma HandoffEffects(s: State, call: Id, seen: nat, text: string)
    ensures call >= |s.calls| ==> Handoff(s, call, seen, text) == s
    ensures call < |s.calls| ==>
              var s1 := Handoff(s, call, seen, text);
              && TurnsOf(s1, call) == TurnsOf(s, call) + [Turn(seen, "operator", text)]
              && (forall c :: c != call ==> TurnsOf(s1, c) == TurnsOf(s, c))
              && s1.calls == s.calls[call := s.calls[call].(handoff := true)]
              && s1.messages == s.messages && s1.numbers == s.numbers && s1.ready == s.ready
  {
  }
}
