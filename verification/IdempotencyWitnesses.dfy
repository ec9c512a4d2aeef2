/**
 * Runs on which the natural promises of the idempotency protocol fail.
 */
module IdempotencyWitnesses {
  import opened Wrappers
  import opened Idempotency
  import opened IdempotencySafety
  import opened IdempotencyRedis
  import opened RedisAnswers

  /** A list of states that a run goes through. */
  ghost predicate Through(events: seq<Event>, states: seq<System>) {
    && |states| == |events| + 1 && states[0] == EMPTY
    && forall k :: 0 <= k < |events| ==> Step(states[k], events[k]) == states[k + 1]
  }

  ghost predicate RedisThrough(events: seq<Event>, states: seq<System>) {
    && |states| == |events| + 1 && states[0] == EMPTY
    && forall k :: 0 <= k < |events| ==> RedisStep(states[k], events[k]) == states[k + 1]
  }

  lemma {:induction false} Reaches(events: seq<Event>, states: seq<System>, i: nat)
    requires Through(events, states) && i <= |events|
    ensures Run(EMPTY, events[..i]) == states[i]
  {
    if i > 0 {
      Reaches(events, states, i - 1);
      assert events[..i][..i - 1] == events[..i - 1];
    }
  }

  lemma {:induction false} RedisReaches(events: seq<Event>, states: seq<System>, i: nat)
    requires RedisThrough(events, states) && i <= |events|
    ensures RedisRun(EMPTY, events[..i]) == states[i]
  {
    if i > 0 {
      RedisReaches(events, states, i - 1);
      assert events[..i][..i - 1] == events[..i - 1];
    }
  }

  // ---------------------------------------------------------------- a response is withdrawn

  /** The first request creates its call; its `complete` writes the response and raises. A second
      request is told that response. Then the first marks its call failed and releases the key. */
  function Withdrawal(key: Key): seq<Event> {
    [Arrive(0, key, "a"), Begin(0), CreateCall(0), Provision(0), CompleteCall(0, RaisesAfter),
     Arrive(1, key, "a"), Begin(1), MarkFailed(0, true), Release(0, Done)]
  }

  function First(key: Key, pc: Pc): map<Id, Request> {
    map[0 := Request(key, "a", pc)]
  }

  function Both(key: Key, pc: Pc, second: Pc): map<Id, Request> {
    map[0 := Request(key, "a", pc), 1 := Request(key, "a", second)]
  }

  function Stored0(key: Key): Store {
    map[key := Complete("a", Created(0))]
  }

  function WithdrawalStates(key: Key): seq<System> {
    var live, dead := map[0 := Call(key, false)], map[0 := Call(key, true)];
    var failing, told := Failing(Some(0), Other, true), Replied(Replay(Created(0)));
    [EMPTY,
     System(map[], First(key, Start), map[], 0),
     System(map[key := Pending("a")], First(key, Held), map[], 0),
     System(map[key := Pending("a")], First(key, Dialing(0)), live, 1),
     System(map[key := Pending("a")], First(key, Ready(0)), live, 1),
     System(Stored0(key), First(key, failing), live, 1),
     System(Stored0(key), Both(key, failing, Start), live, 1),
     System(Stored0(key), Both(key, failing, told), live, 1),
     System(Stored0(key), Both(key, Releasing(true), told), dead, 1),
     System(map[], Both(key, Gone, told), dead, 1)]
  }

  lemma WithdrawalReserves(key: Key, k: nat)
    requires 0 <= k < 2
    ensures Step(WithdrawalStates(key)[k], Withdrawal(key)[k]) == WithdrawalStates(key)[k + 1]
  {
  }

  lemma WithdrawalCalls(key: Key, k: nat)
    requires 2 <= k < 4
    ensures Step(WithdrawalStates(key)[k], Withdrawal(key)[k]) == WithdrawalStates(key)[k + 1]
  {
  }

  lemma WithdrawalCompletes(key: Key, k: nat)
    requires 4 <= k < 6
    ensures Step(WithdrawalStates(key)[k], Withdrawal(key)[k]) == WithdrawalStates(key)[k + 1]
  {
  }

  lemma WithdrawalReplays(key: Key, k: nat)
    requires k == 6
    ensures Step(WithdrawalStates(key)[k], Withdrawal(key)[k]) == WithdrawalStates(key)[k + 1]
  {
  }

  lemma Marks(key: Key, second: Pc)
    ensures Step(System(Stored0(key), Both(key, Failing(Some(0), Other, true), second), map[0 := Call(key, false)], 1),
                 MarkFailed(0, true))
            == System(Stored0(key), Both(key, Releasing(true), second), map[0 := Call(key, true)], 1)
  {
  }

  lemma WithdrawalMarks(key: Key, k: nat)
    requires k == 7
    ensures Step(WithdrawalStates(key)[k], Withdrawal(key)[k]) == WithdrawalStates(key)[k + 1]
  {
    Marks(key, Replied(Replay(Created(0))));
  }

  lemma WithdrawalReleases(key: Key, k: nat)
    requires k == 8
    ensures Step(WithdrawalStates(key)[k], Withdrawal(key)[k]) == WithdrawalStates(key)[k + 1]
  {
  }

  lemma WithdrawalStep(key: Key, k: nat)
    requires k < 9
    ensures Step(WithdrawalStates(key)[k], Withdrawal(key)[k]) == WithdrawalStates(key)[k + 1]
  {
    if k < 2 {
      WithdrawalReserves(key, k);
    } else if k < 4 {
      WithdrawalCalls(key, k);
    } else if k < 6 {
      WithdrawalCompletes(key, k);
    } else if k < 7 {
      WithdrawalReplays(key, k);
    } else if k < 8 {
      WithdrawalMarks(key, k);
    } else {
      WithdrawalReleases(key, k);
    }
  }

  /** A request was told the response of a call that is then marked failed, and the key is free. */
  lemma ReplayedThenWithdrawn(key: Key)
    ensures var before, after := Run(EMPTY, Withdrawal(key)[..8]), Run(EMPTY, Withdrawal(key));
            && key in before.store && before.store[key] == Complete("a", Created(0))
            && Unwrites(before, Release(0, Done), key)
            && 1 in after.requests && after.requests[1].pc == Replied(Replay(Created(0)))
            && 0 in after.calls && after.calls[0].failed
            && key !in after.store
  {
    forall k | 0 <= k < 9 ensures Step(WithdrawalStates(key)[k], Withdrawal(key)[k]) == WithdrawalStates(key)[k + 1] {
      WithdrawalStep(key, k);
    }
    Reaches(Withdrawal(key), WithdrawalStates(key), 8);
    Reaches(Withdrawal(key), WithdrawalStates(key), 9);
    assert Withdrawal(key)[..9] == Withdrawal(key);
  }

  /** The same over Redis, the second request having done its SET but not its GET. */
  function Overtaken(key: Key): seq<Event> {
    [Arrive(0, key, "a"), Begin(0), CreateCall(0), Provision(0), CompleteCall(0, RaisesAfter),
     Arrive(1, key, "a"), Begin(1), MarkFailed(0, true), Release(0, Done), Get(1)]
  }

  function OvertakenStates(key: Key): seq<System> {
    var live, dead := map[0 := Call(key, false)], map[0 := Call(key, true)];
    var failing := Failing(Some(0), Other, true);
    [EMPTY,
     System(map[], First(key, Start), map[], 0),
     System(map[key := Pending("a")], First(key, Held), map[], 0),
     System(map[key := Pending("a")], First(key, Dialing(0)), live, 1),
     System(map[key := Pending("a")], First(key, Ready(0)), live, 1),
     System(Stored0(key), First(key, failing), live, 1),
     System(Stored0(key), Both(key, failing, Start), live, 1),
     System(Stored0(key), Both(key, failing, Reading), live, 1),
     System(Stored0(key), Both(key, Releasing(true), Reading), dead, 1),
     System(map[], Both(key, Gone, Reading), dead, 1),
     System(map[], Both(key, Gone, Replied(InProgress)), dead, 1)]
  }

  lemma OvertakenReserves(key: Key, k: nat)
    requires 0 <= k < 2
    ensures RedisStep(OvertakenStates(key)[k], Overtaken(key)[k]) == OvertakenStates(key)[k + 1]
  {
  }

  lemma OvertakenCalls(key: Key, k: nat)
    requires k == 2
    ensures RedisStep(OvertakenStates(key)[k], Overtaken(key)[k]) == OvertakenStates(key)[k + 1]
  {
  }

  lemma OvertakenProvisions(key: Key, k: nat)
    requires k == 3
    ensures RedisStep(OvertakenStates(key)[k], Overtaken(key)[k]) == OvertakenStates(key)[k + 1]
  {
  }

  lemma OvertakenCompletes(key: Key, k: nat)
    requires 4 <= k < 6
    ensures RedisStep(OvertakenStates(key)[k], Overtaken(key)[k]) == OvertakenStates(key)[k + 1]
  {
  }

  lemma OvertakenSets(key: Key, k: nat)
    requires k == 6
    ensures RedisStep(OvertakenStates(key)[k], Overtaken(key)[k]) == OvertakenStates(key)[k + 1]
  {
  }

  lemma OvertakenMarks(key: Key, k: nat)
    requires k == 7
    ensures RedisStep(OvertakenStates(key)[k], Overtaken(key)[k]) == OvertakenStates(key)[k + 1]
  {
    Marks(key, Reading);
  }

  lemma OvertakenReleases(key: Key, k: nat)
    requires k == 8
    ensures RedisStep(OvertakenStates(key)[k], Overtaken(key)[k]) == OvertakenStates(key)[k + 1]
  {
  }

  lemma OvertakenGets(key: Key, k: nat)
    requires k == 9
    ensures RedisStep(OvertakenStates(key)[k], Overtaken(key)[k]) == OvertakenStates(key)[k + 1]
  {
  }

  lemma OvertakenStep(key: Key, k: nat)
    requires k < 10
    ensures RedisStep(OvertakenStates(key)[k], Overtaken(key)[k]) == OvertakenStates(key)[k + 1]
  {
    if k < 2 {
      OvertakenReserves(key, k);
    } else if k < 3 {
      OvertakenCalls(key, k);
    } else if k < 4 {
      OvertakenProvisions(key, k);
    } else if k < 6 {
      OvertakenCompletes(key, k);
    } else if k < 7 {
      OvertakenSets(key, k);
    } else if k < 8 {
      OvertakenMarks(key, k);
    } else if k < 9 {
      OvertakenReleases(key, k);
    } else {
      OvertakenGets(key, k);
    }
  }

  lemma OvertakenRun(key: Key, i: nat)
    requires i <= 10
    ensures RedisRun(EMPTY, Overtaken(key)[..i]) == OvertakenStates(key)[i]
  {
    forall k | 0 <= k < 10
      ensures RedisStep(OvertakenStates(key)[k], Overtaken(key)[k]) == OvertakenStates(key)[k + 1]
    {
      OvertakenStep(key, k);
    }
    RedisReaches(Overtaken(key), OvertakenStates(key), i);
  }

  lemma OvertakenPayload(key: Key)
    ensures OnePayload(Overtaken(key), (k: Key) => "a")
  {
  }

  predicate HasRequest(s: System, r: Id, q: Request) {
    r in s.requests && s.requests[r] == q
  }

  lemma OvertakenSet(key: Key)
    ensures HasRequest(RedisRun(EMPTY, Overtaken(key)[..6]), 1, Request(key, "a", Start))
    ensures key in StoreAt(Overtaken(key), 6)
  {
    OvertakenRun(key, 6);
  }

  lemma OvertakenGet(key: Key)
    ensures HasRequest(RedisRun(EMPTY, Overtaken(key)[..9]), 1, Request(key, "a", Reading))
  {
    OvertakenRun(key, 9);
  }

  lemma OvertakenCommands(key: Key)
    ensures Commands(Overtaken(key), 6, 9, 1, Request(key, "a", Start))
  {
    OvertakenSet(key);
    OvertakenGet(key);
  }

  lemma OvertakenAnswer(key: Key, i: nat)
    requires 6 <= i <= 9
    ensures MemoryAnswer(Overtaken(key), i, Request(key, "a", Start)) in {Replay(Created(0)), Granted}
    ensures i == 9 ==> RedisGet(StoreAt(Overtaken(key), i), key, "a") == InProgress
  {
    OvertakenRun(key, i);
  }

  /** One payload, but a withdrawn response: the second request is told "in progress", where the
      in-memory store says replay before the release and grants the key after it. */
  lemma WithdrawnAnswersInProgress(key: Key)
    ensures OnePayload(Overtaken(key), (k: Key) => "a")
    ensures Commands(Overtaken(key), 6, 9, 1, Request(key, "a", Start))
    ensures IsReply(RedisRun(EMPTY, Overtaken(key)[..9 + 1]), 1, InProgress)
    ensures !AnsweredLikeMemory(Overtaken(key), 6, 9, 1, Request(key, "a", Start))
  {
    OvertakenPayload(key);
    OvertakenCommands(key);
    AnswerAt(Overtaken(key), 6, 9, 1, Request(key, "a", Start));
    OvertakenAnswer(key, 9);
    forall i | 6 <= i <= 9 ensures MemoryAnswer(Overtaken(key), i, Request(key, "a", Start)) != InProgress {
      OvertakenAnswer(key, i);
    }
  }

  // ------------------------------------------------------------------------- two payloads

  /** The first request gives up between the two commands of a second with another payload. */
  function Race(key: Key): seq<Event> {
    [Arrive(0, key, "a"), Arrive(1, key, "b"), Begin(0), Begin(1),
     Fails(0, Other), MarkFailed(0, true), Release(0, Done), Get(1)]
  }

  function Rivals(key: Key, pc: Pc, second: Pc): map<Id, Request> {
    map[0 := Request(key, "a", pc), 1 := Request(key, "b", second)]
  }

  function RaceStates(key: Key): seq<System> {
    var pending := map[key := Pending("a")];
    [EMPTY,
     System(map[], First(key, Start), map[], 0),
     System(map[], Rivals(key, Start, Start), map[], 0),
     System(pending, Rivals(key, Held, Start), map[], 0),
     System(pending, Rivals(key, Held, Reading), map[], 0),
     System(pending, Rivals(key, Failing(None, Other, false), Reading), map[], 0),
     System(pending, Rivals(key, Releasing(false), Reading), map[], 0),
     System(map[], Rivals(key, Gone, Reading), map[], 0),
     System(map[], Rivals(key, Gone, Replied(InProgress)), map[], 0)]
  }

  lemma RaceArrives(key: Key, k: nat)
    requires 0 <= k < 2
    ensures RedisStep(RaceStates(key)[k], Race(key)[k]) == RaceStates(key)[k + 1]
  {
  }

  lemma RaceReserves(key: Key, k: nat)
    requires k == 2
    ensures RedisStep(RaceStates(key)[k], Race(key)[k]) == RaceStates(key)[k + 1]
  {
  }

  lemma RaceSets(key: Key, k: nat)
    requires k == 3
    ensures RedisStep(RaceStates(key)[k], Race(key)[k]) == RaceStates(key)[k + 1]
  {
  }

  lemma RaceFails(key: Key, k: nat)
    requires k == 4
    ensures RedisStep(RaceStates(key)[k], Race(key)[k]) == RaceStates(key)[k + 1]
  {
  }

  lemma RaceMarks(key: Key, k: nat)
    requires k == 5
    ensures RedisStep(RaceStates(key)[k], Race(key)[k]) == RaceStates(key)[k + 1]
  {
  }

  lemma RaceReleases(key: Key, k: nat)
    requires k == 6
    ensures RedisStep(RaceStates(key)[k], Race(key)[k]) == RaceStates(key)[k + 1]
  {
  }

  lemma RaceGets(key: Key, k: nat)
    requires k == 7
    ensures RedisStep(RaceStates(key)[k], Race(key)[k]) == RaceStates(key)[k + 1]
  {
  }

  lemma RaceStep(key: Key, k: nat)
    requires k < 8
    ensures RedisStep(RaceStates(key)[k], Race(key)[k]) == RaceStates(key)[k + 1]
  {
    if k < 2 {
      RaceArrives(key, k);
    } else if k < 3 {
      RaceReserves(key, k);
    } else if k < 4 {
      RaceSets(key, k);
    } else if k < 5 {
      RaceFails(key, k);
    } else if k < 6 {
      RaceMarks(key, k);
    } else if k < 7 {
      RaceReleases(key, k);
    } else {
      RaceGets(key, k);
    }
  }

  lemma RaceRun(key: Key, i: nat)
    requires i <= 8
    ensures RedisRun(EMPTY, Race(key)[..i]) == RaceStates(key)[i]
  {
    forall k | 0 <= k < 8 ensures RedisStep(RaceStates(key)[k], Race(key)[k]) == RaceStates(key)[k + 1] {
      RaceStep(key, k);
    }
    RedisReaches(Race(key), RaceStates(key), i);
  }

  lemma RaceCommands(key: Key)
    ensures Commands(Race(key), 3, 7, 1, Request(key, "b", Start))
  {
    RaceRun(key, 3);
    RaceRun(key, 7);
  }

  lemma RaceAnswer(key: Key, i: nat)
    requires 3 <= i <= 7
    ensures MemoryAnswer(Race(key), i, Request(key, "b", Start)) in {Conflict, Granted}
    ensures i == 7 ==> RedisGet(StoreAt(Race(key), i), key, "b") == InProgress
  {
    RaceRun(key, i);
  }

  /** No response at all, but two payloads: the second request is told "in progress", where the
      in-memory store says conflict before the release and grants the key after it. */
  lemma RaceAnswersInProgress(key: Key)
    ensures Commands(Race(key), 3, 7, 1, Request(key, "b", Start))
    ensures IsReply(RedisRun(EMPTY, Race(key)[..7 + 1]), 1, InProgress)
    ensures !AnsweredLikeMemory(Race(key), 3, 7, 1, Request(key, "b", Start))
  {
    RaceCommands(key);
    RaceAnswer(key, 7);
    AnswerAt(Race(key), 3, 7, 1, Request(key, "b", Start));
    forall i | 3 <= i <= 7 ensures MemoryAnswer(Race(key), i, Request(key, "b", Start)) != InProgress {
      RaceAnswer(key, i);
    }
  }
}
