/**
 * What the engine and the simulator answer, state by state, and which error a broken process gets.
 */
module FlowAnswers {
  import opened Wrappers
  import opened Flow
  import opened FlowEngine

  /** Transition `k` of state `i` is the first one for the intent. */
  ghost predicate IsFirst(p: Process, i: int, k: int, intent: string) {
    && 0 <= i < |p.states| && p.states[i].State? && 0 <= k < |p.states[i].transitions|
    && var ts := p.states[i].transitions;
    && ts[k].Transition? && ts[k].intent == intent
    && forall j :: 0 <= j < k && ts[j].Transition? ==> ts[j].intent != intent
  }

  ghost predicate IsState(p: Process, i: int, id: string) {
    0 <= i < |p.states| && p.states[i].State? && p.states[i].id == id
  }

  lemma FindIs(p: Process, i: nat, id: string)
    requires WellFormed(p) && IsState(p, i, id)
    ensures Declared(p.states, id) && Find(p.states, id) == i
  {
    assert p.states[i].State? && p.states[i].id == id;
    var f := Find(p.states, id);
    assert f == i;
  }

  lemma {:induction false} TransitionForIs(ts: seq<Transition>, intent: string, k: nat)
    requires k < |ts| && ts[k].Transition? && ts[k].intent == intent
    requires forall j :: 0 <= j < k && ts[j].Transition? ==> ts[j].intent != intent
    ensures TransitionFor(ts, intent) == Some(ts[k])
  {
    if k > 0 {
      assert forall j :: 0 <= j < k - 1 ==> ts[1..][j] == ts[j + 1];
      TransitionForIs(ts[1..], intent, k - 1);
    }
  }

  /** In state `i`, for an intent its `k`-th transition is the first to name: the engine moves to
      the state that transition leads to, says its prompt, passes on its action, and has ended
      exactly when that state is terminal. */
  lemma AnswersMove(p: Process, i: nat, k: nat, d: nat, intent: string)
    requires WellFormed(p) && IsFirst(p, i, k, intent) && IsState(p, d, p.states[i].transitions[k].next)
    ensures IsState(p, i, p.states[i].id) && Live(p, Machine(p.states[i].id, false))
    ensures var to := p.states[d];
            Handle(p, Machine(p.states[i].id, false), intent)
            == (Machine(to.id, to.terminal), FlowResult(to.id, Some(to.prompt), Some(to.id), to.terminal, to.action))
  {
    FindIs(p, i, p.states[i].id);
    FindIs(p, d, p.states[i].transitions[k].next);
    TransitionForIs(p.states[i].transitions, intent, k);
  }

  /** For any other intent it stays, and says the state's fallback, or asks again. */
  lemma AnswersFallback(p: Process, i: nat, intent: string)
    requires WellFormed(p) && i < |p.states|
    requires forall t :: t in p.states[i].transitions && t.Transition? ==> t.intent != intent
    ensures Live(p, Machine(p.states[i].id, false))
    ensures var at, m := p.states[i], Machine(p.states[i].id, false);
            var said := if at.fallback == "" then "Não entendi. Pode repetir?" else at.fallback;
            Handle(p, m, intent) == (m, FlowResult(at.id, Some(said), None, false, None))
  {
    assert GoodState(p.states[i], p.states);
    FindIs(p, i, p.states[i].id);
  }

  /** After the end it says nothing and does nothing. */
  lemma AnswersNothing(p: Process, m: Machine, intent: string)
    requires WellFormed(p) && Live(p, m) && m.ended
    ensures Handle(p, m, intent) == (m, FlowResult(m.state, None, None, true, None))
  {
  }

  /** A request is refused for a length first, then for a broken process, then for an undeclared
      state; otherwise the engine answers from the given state, or from the initial one, which is
      the first when none is named. */
  lemma SimulateExactly(p: Process, at: Option<string>, text: string, classify: string -> Option<string>,
                        intent: string)
    requires intent == (if classify(text).Some? && classify(text).value != "" then classify(text).value
                        else "__unknown__")
    ensures var r := Simulate(p, at, text, classify);
            var fits := 1 <= |text| <= 2000 && (at.Some? ==> 1 <= |at.value| <= 120);
            && (!fits <==> r == Failure(BadRequest))
            && (fits && !WellFormed(p) ==> Validate(p).Failure? && r == Failure(InvalidProcess(Validate(p).error)))
            && (fits && WellFormed(p) && at.Some? && !Declared(p.states, at.value) ==> r == Failure(InvalidState))
            && (fits && WellFormed(p) && at.Some? && Declared(p.states, at.value) ==>
                  r == Success(Handle(p, Machine(at.value, false), intent).1))
            && (fits && WellFormed(p) && at.None? ==>
                  var start := if p.initial == "" then p.states[0].id else p.initial;
                  Declared(p.states, start) && r == Success(Handle(p, Machine(start, false), intent).1))
  {
    ValidateMeaning(p);
  }

  // ------------------------------------------------------------------------------------- errors

  /** Transition `k` of state `i` is broken, and none before it, in the order of the text. */
  ghost predicate FirstBroken(p: Process, i: int, k: int) {
    && 0 <= i < |p.states| && p.states[i].State? && 0 <= k < |p.states[i].transitions|
    && !GoodTransition(p.states[i].transitions[k], p.states)
    && (forall j :: 0 <= j < k ==> GoodTransition(p.states[i].transitions[j], p.states))
    && (forall j :: 0 <= j < i ==> GoodState(p.states[j], p.states))
  }

  lemma FaultAt(t: Transition, states: seq<Item>)
    requires !GoodTransition(t, states)
    ensures TransitionFault(t, Ids(states))
            == Some(if t.NotATransition? || t.intent == "" then NoIntent else NoTarget(t.next))
  {
    if t.Transition? { IdsMeaning(states, t.next); }
  }

  lemma FaultInAt(ts: seq<Transition>, states: seq<Item>, k: nat)
    requires k < |ts| && !GoodTransition(ts[k], states)
    requires forall j :: 0 <= j < k ==> GoodTransition(ts[j], states)
    ensures FaultIn(ts, Ids(states)) == TransitionFault(ts[k], Ids(states))
  {
    FaultAt(ts[k], states);
    FaultInMeaning(ts[..k], states);
    assert ts[..k + 1][..k] == ts[..k];
    FaultPersists(ts, k + 1, Ids(states));
  }

  lemma FirstFaultAt(states: seq<Item>, all: seq<Item>, i: nat)
    requires i < |states| && states[i].State? && FaultIn(states[i].transitions, Ids(all)).Some?
    requires forall j :: 0 <= j < i ==> GoodState(states[j], all)
    ensures FirstFault(states, Ids(all)) == FaultIn(states[i].transitions, Ids(all))
  {
    FirstFaultMeaning(states[..i], all);
    assert states[..i + 1][..i] == states[..i];
    FirstFaultPersists(states, i + 1, Ids(all));
  }

  /** The error of a process that is not accepted, in the order of the checks. */
  lemma ErrorsExactly(p: Process)
    ensures p.states == [] ==> Validate(p) == Failure(NoStates)
    ensures p.states != [] && (!DistinctStates(p.states) || Declared(p.states, "None")) ==>
              Validate(p) == Failure(BadIds)
    ensures p.states != [] && DistinctStates(p.states) && !Declared(p.states, "None") ==>
              var start := if p.initial == "" then p.states[0].id else p.initial;
              && (!Declared(p.states, start) ==> Validate(p) == Failure(BadInitial))
              && (WellFormed(p) <==> Validate(p) == Success(p.(initial := start)))
  {
    ValidateMeaning(p);
    IdsCount(p.states);
    IdsMeaning(p.states, "None");
    if p.states != [] && DistinctStates(p.states) { IdsMeaning(p.states, Start(p)); }
  }

  /** Of broken transitions the first one decides: it names no intent, or no declared state. */
  lemma BrokenTransition(p: Process, i: nat, k: nat)
    requires DistinctStates(p.states) && !Declared(p.states, "None") && FirstBroken(p, i, k)
    requires Declared(p.states, if p.initial == "" then p.states[0].id else p.initial)
    ensures var t := p.states[i].transitions[k];
            Validate(p) == Failure(if t.NotATransition? || t.intent == "" then NoIntent else NoTarget(t.next))
  {
    IdsCount(p.states);
    IdsMeaning(p.states, "None");
    IdsMeaning(p.states, Start(p));
    FaultAt(p.states[i].transitions[k], p.states);
    FaultInAt(p.states[i].transitions, p.states, k);
    FirstFaultAt(p.states, p.states, i);
  }
}
