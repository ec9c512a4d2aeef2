/**
 * The per-call flow engine (apps/agent-worker/voiceos_voice/flow.py) and the stateless simulator
 * that runs one turn of it per request (apps/api/voiceos_api/routes.py).
 */
module Flow {
  import opened Wrappers

  /** An absent intent is the empty string, an absent id "None". */
  datatype Transition = Transition(intent: string, next: string) | NotATransition

  datatype Item = State(id: string, prompt: string, fallback: string, terminal: bool, action: Option<string>,
                        transitions: seq<Transition>)
                | NotAState

  datatype Process = Process(initial: string, states: seq<Item>)

  datatype FlowError = NoStates | BadIds | BadInitial | NoIntent | NoTarget(target: string)

  // ---------------------------------------------------------------------------- validation

  function Ids(states: seq<Item>): set<string> {
    if states == [] then {}
    else var n := |states| - 1; Ids(states[..n]) + if states[n].State? then {states[n].id} else {}
  }

  function Start(p: Process): string
    requires p.states != [] && p.states[0].State?
  {
    if p.initial != "" then p.initial else p.states[0].id
  }

  function TransitionFault(t: Transition, ids: set<string>): Option<FlowError> {
    if t.NotATransition? || t.intent == "" then Some(NoIntent)
    else if t.next !in ids then Some(NoTarget(t.next))
    else None
  }

  function FaultIn(ts: seq<Transition>, ids: set<string>): Option<FlowError> {
    if ts == [] then None
    else
      var n := |ts| - 1;
      var before := FaultIn(ts[..n], ids);
      if before.Some? then before else TransitionFault(ts[n], ids)
  }

  function FirstFault(states: seq<Item>, ids: set<string>): Option<FlowError> {
    if states == [] then None
    else
      var n := |states| - 1;
      var before := FirstFault(states[..n], ids);
      if before.Some? || states[n].NotAState? then before else FaultIn(states[n].transitions, ids)
  }

  function Validate(p: Process): Result<Process, FlowError> {
    var ids := Ids(p.states);
    if p.states == [] then Failure(NoStates)
    else if |ids| != |p.states| || "None" in ids then Failure(BadIds)
    else
      IdsCount(p.states);
      if Start(p) !in ids then Failure(BadInitial)
      else
        var fault := FirstFault(p.states, ids);
        if fault.Some? then Failure(fault.value) else Success(p.(initial := Start(p)))
  }

  predicate DistinctStates(states: seq<Item>) {
    && (forall i :: 0 <= i < |states| ==> states[i].State?)
    && (forall i, j :: 0 <= i < j < |states| ==> states[i].id != states[j].id)
  }

  predicate Declared(states: seq<Item>, id: string) {
    exists i :: 0 <= i < |states| && states[i].State? && states[i].id == id
  }

  lemma {:induction false} IdsMeaning(states: seq<Item>, id: string)
    ensures id in Ids(states) <==> Declared(states, id)
  {
    if states != [] {
      var n := |states| - 1;
      IdsMeaning(states[..n], id);
      if Declared(states[..n], id) {
        var i :| 0 <= i < n && states[..n][i].State? && states[..n][i].id == id;
        assert states[i].id == id;
      }
      if Declared(states, id) {
        var i :| 0 <= i < |states| && states[i].State? && states[i].id == id;
        assert i < n ==> states[..n][i] == states[i];
      }
    }
  }

  lemma DistinctSnoc(rest: seq<Item>, last: Item)
    ensures DistinctStates(rest + [last]) <==> DistinctStates(rest) && last.State? && !Declared(rest, last.id)
  {
    var all, n := rest + [last], |rest|;
    assert all[n] == last && forall i :: 0 <= i < n ==> all[i] == rest[i];
    if DistinctStates(all) {
      forall i | 0 <= i < n ensures rest[i].State? && rest[i].id != last.id {
        assert all[i].id != all[n].id;
      }
    }
  }

  /** As many ids as items: every item is a state and no id occurs twice. */
  lemma {:induction false} IdsCount(states: seq<Item>)
    ensures |Ids(states)| <= |states|
    ensures |Ids(states)| == |states| <==> DistinctStates(states)
  {
    if states != [] {
      var n := |states| - 1;
      IdsCount(states[..n]);
      assert states == states[..n] + [states[n]];
      DistinctSnoc(states[..n], states[n]);
      if states[n].State? { IdsMeaning(states[..n], states[n].id); }
    }
  }

  predicate GoodTransition(t: Transition, states: seq<Item>) {
    t.Transition? && t.intent != "" && Declared(states, t.next)
  }

  predicate GoodState(item: Item, states: seq<Item>) {
    item.State? && forall k :: 0 <= k < |item.transitions| ==> GoodTransition(item.transitions[k], states)
  }

  /** What a valid process is: distinct states with ids, a declared initial state, and transitions
      that name an intent and lead to declared states. */
  predicate WellFormed(p: Process) {
    && p.states != [] && DistinctStates(p.states) && !Declared(p.states, "None")
    && Declared(p.states, Start(p))
    && forall i :: 0 <= i < |p.states| ==> GoodState(p.states[i], p.states)
  }

  lemma {:induction false} FaultInMeaning(ts: seq<Transition>, states: seq<Item>)
    ensures FaultIn(ts, Ids(states)).None? <==> forall k :: 0 <= k < |ts| ==> GoodTransition(ts[k], states)
  {
    if ts != [] {
      var n := |ts| - 1;
      FaultInMeaning(ts[..n], states);
      if ts[n].Transition? { IdsMeaning(states, ts[n].next); }
      assert forall k :: 0 <= k < n ==> ts[..n][k] == ts[k];
    }
  }

  lemma {:induction false} FirstFaultMeaning(some: seq<Item>, states: seq<Item>)
    requires forall i :: 0 <= i < |some| ==> some[i].State?
    ensures FirstFault(some, Ids(states)).None? <==> forall i :: 0 <= i < |some| ==> GoodState(some[i], states)
  {
    if some != [] {
      var n := |some| - 1;
      FirstFaultMeaning(some[..n], states);
      FaultInMeaning(some[n].transitions, states);
      assert forall k :: 0 <= k < n ==> some[..n][k] == some[k];
    }
  }

  /** Validation accepts exactly the well-formed processes. */
  lemma ValidateMeaning(p: Process)
    ensures Validate(p).Success? <==> WellFormed(p)
  {
    IdsCount(p.states);
    IdsMeaning(p.states, "None");
    if p.states != [] && DistinctStates(p.states) {
      IdsMeaning(p.states, Start(p));
      FirstFaultMeaning(p.states, p.states);
    }
  }

  method ValidateFlow(p: Process) returns (result: Result<Process, FlowError>)
    ensures result == Validate(p)
  {
    if p.states == [] {
      return Failure(NoStates);
    }
    var ids := CollectIds(p.states);
    if |ids| != |p.states| || "None" in ids {
      return Failure(BadIds);
    }
    IdsCount(p.states);
    if Start(p) !in ids {
      return Failure(BadInitial);
    }
    var fault := CheckStates(p.states, ids);
    return if fault.Some? then Failure(fault.value) else Success(p.(initial := Start(p)));
  }

  method CollectIds(states: seq<Item>) returns (ids: set<string>)
    ensures ids == Ids(states)
  {
    ids := {};
    var i := 0;
    while i < |states|
      invariant 0 <= i <= |states|
      invariant ids == Ids(states[..i])
    {
      assert states[..i + 1][..i] == states[..i];
      if states[i].State? {
        ids := ids + {states[i].id};
      }
      i := i + 1;
    }
    assert states[..i] == states;
  }

  method CheckStates(states: seq<Item>, ids: set<string>) returns (fault: Option<FlowError>)
    ensures fault == FirstFault(states, ids)
  {
    var i := 0;
    while i < |states|
      invariant 0 <= i <= |states|
      invariant FirstFault(states[..i], ids).None?
    {
      assert states[..i + 1][..i] == states[..i];
      if states[i].State? {
        fault := CheckTransitions(states[i].transitions, ids);
        if fault.Some? {
          FirstFaultPersists(states, i + 1, ids);
          return;
        }
      }
      i := i + 1;
    }
    assert states[..i] == states;
    return None;
  }

  method CheckTransitions(ts: seq<Transition>, ids: set<string>) returns (fault: Option<FlowError>)
    ensures fault == FaultIn(ts, ids)
  {
    var k := 0;
    while k < |ts|
      invariant 0 <= k <= |ts|
      invariant FaultIn(ts[..k], ids).None?
    {
      assert ts[..k + 1][..k] == ts[..k];
      fault := TransitionFault(ts[k], ids);
      if fault.Some? {
        FaultPersists(ts, k + 1, ids);
        return;
      }
      k := k + 1;
    }
    assert ts[..k] == ts;
    return None;
  }

  lemma {:induction false} FaultPersists(ts: seq<Transition>, k: nat, ids: set<string>)
    requires k <= |ts| && FaultIn(ts[..k], ids).Some?
    ensures FaultIn(ts, ids) == FaultIn(ts[..k], ids)
  {
    if k == |ts| {
      assert ts[..k] == ts;
    } else {
      var n := |ts| - 1;
      assert ts[..n][..k] == ts[..k];
      FaultPersists(ts[..n], k, ids);
    }
  }

  lemma {:induction false} FirstFaultPersists(states: seq<Item>, k: nat, ids: set<string>)
    requires k <= |states| && FirstFault(states[..k], ids).Some?
    ensures FirstFault(states, ids) == FirstFault(states[..k], ids)
  {
    if k == |states| {
      assert states[..k] == states;
    } else {
      var n := |states| - 1;
      assert states[..n][..k] == states[..k];
      FirstFaultPersists(states[..n], k, ids);
    }
  }
}
