/**
 * Running a valid process: the live engine, the simulator, and how far they agree.
 */
module FlowEngine {
  import opened Wrappers
  import opened Flow

  datatype FlowResult = FlowResult(state: string, response: Option<string>, next: Option<string>, terminal: bool,
                                   action: Option<string>)

  /** The engine's state: where it is and whether it has ended. */
  datatype Machine = Machine(state: string, ended: bool)

  const SORRY := "Não entendi. Pode repetir?"

  function Find(states: seq<Item>, id: string): (i: nat)
    requires Declared(states, id)
    ensures i < |states| && states[i].State? && states[i].id == id
  {
    if states[0].State? && states[0].id == id then 0
    else
      var i :| 0 <= i < |states| && states[i].State? && states[i].id == id;
      assert states[1..][i - 1] == states[i];
      1 + Find(states[1..], id)
  }

  /** The first transition for the intent. */
  function TransitionFor(ts: seq<Transition>, intent: string): (t: Option<Transition>)
    ensures t.Some? ==> t.value in ts && t.value.Transition? && t.value.intent == intent
    ensures t.None? ==> forall x :: x in ts && x.Transition? ==> x.intent != intent
  {
    if ts == [] then None
    else if ts[0].Transition? && ts[0].intent == intent then Some(ts[0])
    else TransitionFor(ts[1..], intent)
  }

  function Initially(p: Process): Machine
    requires WellFormed(p)
  {
    Machine(Start(p), false)
  }

  predicate Live(p: Process, m: Machine) {
    Declared(p.states, m.state)
  }

  function Handle(p: Process, m: Machine, intent: string): (r: (Machine, FlowResult))
    requires WellFormed(p) && Live(p, m)
    ensures Live(p, r.0)
  {
    if m.ended then (m, FlowResult(m.state, None, None, true, None))
    else
      var i := Find(p.states, m.state);
      assert GoodState(p.states[i], p.states);
      var current := p.states[i];
      var t := TransitionFor(current.transitions, intent);
      if t.None? then
        (m, FlowResult(m.state, Some(if current.fallback != "" then current.fallback else SORRY), None, false, None))
      else
        assert GoodTransition(t.value, p.states);
        var target := t.value.next;
        var destination := p.states[Find(p.states, target)];
        (Machine(target, destination.terminal),
         FlowResult(target, Some(destination.prompt), Some(target), destination.terminal, destination.action))
  }

  const UNKNOWN := "__unknown__"

  /** `classify` is the utterance's intent; what the engine is given when there is none. */
  function Heard(classify: string -> Option<string>, text: string): string {
    match classify(text)
    case Some(intent) => if intent != "" then intent else UNKNOWN
    case None => UNKNOWN
  }

  /** `BadRequest`: the request's text or state has not the length its schema demands. */
  datatype Refusal = BadRequest | InvalidProcess(error: FlowError) | InvalidState

  predicate Sendable(state: string) {
    1 <= |state| <= 120
  }

  predicate Speakable(text: string) {
    1 <= |text| <= 2000
  }

  /** One request to the simulator: a new engine, put into the given state. */
  function Simulate(p: Process, at: Option<string>, text: string,
                    classify: string -> Option<string>): Result<FlowResult, Refusal> {
    ValidateMeaning(p);
    var valid, intent := Validate(p), Heard(classify, text);
    if !Speakable(text) || (at.Some? && !Sendable(at.value)) then Failure(BadRequest)
    else if valid.Failure? then Failure(InvalidProcess(valid.error))
    else if at.Some? && at.value != "" then
      if !Declared(p.states, at.value) then Failure(InvalidState)
      else Success(Handle(p, Machine(at.value, false), intent).1)
    else Success(Handle(p, Initially(p), intent).1)
  }

  // ---------------------------------------------------------------------------- whole runs

  function After(p: Process, intents: seq<string>): (m: Machine)
    requires WellFormed(p)
    ensures Live(p, m)
  {
    if intents == [] then Initially(p) else Handle(p, After(p, intents[..|intents| - 1]), intents[|intents| - 1]).0
  }

  /** What the engine answers to the last of these. */
  function Answer(p: Process, intents: seq<string>): FlowResult
    requires WellFormed(p) && intents != []
  {
    Handle(p, After(p, intents[..|intents| - 1]), intents[|intents| - 1]).1
  }

  /** The intents of a sequence of utterances. */
  function Hear(classify: string -> Option<string>, texts: seq<string>): (intents: seq<string>)
    ensures |intents| == |texts|
  {
    if texts == [] then [] else Hear(classify, texts[..|texts| - 1]) + [Heard(classify, texts[|texts| - 1])]
  }

  /** What the simulator answers to the last of these, each request sending the state returned by
      the one before it; the first refusal ends the chain. */
  function Simulated(p: Process, classify: string -> Option<string>, texts: seq<string>): Result<FlowResult, Refusal>
    requires texts != []
  {
    var n := |texts| - 1;
    if n == 0 then Simulate(p, None, texts[0], classify)
    else
      var before := Simulated(p, classify, texts[..n]);
      if before.Failure? then before else Simulate(p, Some(before.value.state), texts[n], classify)
  }

  predicate TextsFit(texts: seq<string>) {
    forall i :: 0 <= i < |texts| ==> Speakable(texts[i])
  }

  /** The state of every answer before the last can be sent back. */
  predicate StatesFit(p: Process, intents: seq<string>)
    requires WellFormed(p)
  {
    |intents| > 1 ==>
      var rest := intents[..|intents| - 1];
      StatesFit(p, rest) && Sendable(Answer(p, rest).state)
  }

  /** Some answer before the last was terminal. */
  predicate EndedBefore(p: Process, intents: seq<string>)
    requires WellFormed(p) && intents != []
  {
    exists k :: 0 < k < |intents| && Answer(p, intents[..k]).terminal
  }

  lemma EndedIsTerminal(p: Process, intents: seq<string>)
    requires WellFormed(p) && intents != []
    ensures After(p, intents).ended <==> Answer(p, intents).terminal
    ensures After(p, intents).state == Answer(p, intents).state
  {
  }

  lemma EndedStep(p: Process, intents: seq<string>, rest: seq<string>, last: string)
    requires WellFormed(p) && rest != [] && intents == rest + [last]
    ensures EndedBefore(p, intents) <==> EndedBefore(p, rest) || Answer(p, rest).terminal
  {
    var n := |rest|;
    assert intents[..n] == rest;
    assert forall k :: 0 < k <= n ==> intents[..k] == rest[..k];
    if EndedBefore(p, rest) {
      var k :| 0 < k < n && Answer(p, rest[..k]).terminal;
      assert Answer(p, intents[..k]).terminal;
    }
    if Answer(p, rest).terminal { assert Answer(p, intents[..n]).terminal; }
  }

  lemma {:induction false} EndedMeaning(p: Process, intents: seq<string>)
    requires WellFormed(p) && intents != []
    ensures EndedBefore(p, intents) <==> After(p, intents[..|intents| - 1]).ended
  {
    var n := |intents| - 1;
    var rest := intents[..n];
    if n > 0 {
      EndedMeaning(p, rest);
      EndedStep(p, intents, rest, intents[n]);
      EndedIsTerminal(p, rest);
      EndedStays(p, rest);
    }
  }

  /** A declared state, such as every state the simulator returns, is accepted exactly when it
      has 1 to 120 characters. */
  lemma ReturnedAccepted(p: Process, state: string, text: string, classify: string -> Option<string>)
    requires WellFormed(p) && Declared(p.states, state) && Speakable(text)
    ensures Simulate(p, Some(state), text, classify).Success? <==> 1 <= |state| <= 120
    ensures Simulate(p, Some(state), text, classify).Success? ==>
              Declared(p.states, Simulate(p, Some(state), text, classify).value.state)
  {
    ValidateMeaning(p);
  }

  /** The simulator always says something; an engine that has ended does not. */
  lemma SimulatorSpeaks(p: Process, classify: string -> Option<string>, texts: seq<string>)
    requires texts != []
    ensures Simulated(p, classify, texts).Success? ==> Simulated(p, classify, texts).value.response.Some?
  {
    ValidateMeaning(p);
  }

  lemma SameTurn(p: Process, m: Machine, text: string, classify: string -> Option<string>)
    requires WellFormed(p) && Live(p, m) && !m.ended
    ensures Simulate(p, Some(m.state), text, classify)
            == if Speakable(text) && Sendable(m.state)
               then Success(Handle(p, m, Heard(classify, text)).1) else Failure(BadRequest)
    ensures m == Initially(p) ==>
              Simulate(p, None, text, classify)
              == if Speakable(text) then Success(Handle(p, m, Heard(classify, text)).1) else Failure(BadRequest)
  {
    ValidateMeaning(p);
  }

  /** The simulator agrees, or has refused, according to whether every length so far fits. */
  predicate AgreesIfFit(p: Process, classify: string -> Option<string>, texts: seq<string>)
    requires WellFormed(p) && texts != []
  {
    var intents, simulated := Hear(classify, texts), Simulated(p, classify, texts);
    if TextsFit(texts) && StatesFit(p, intents) then simulated == Success(Answer(p, intents)) else simulated.Failure?
  }

  lemma HearSnoc(classify: string -> Option<string>, rest: seq<string>, text: string)
    ensures Hear(classify, rest + [text]) == Hear(classify, rest) + [Heard(classify, text)]
  {
    assert (rest + [text])[..|rest|] == rest;
  }

  lemma FirstTurnAgrees(p: Process, classify: string -> Option<string>, text: string)
    requires WellFormed(p)
    ensures AgreesIfFit(p, classify, [text])
  {
    HearSnoc(classify, [], text);
    assert [] + [text] == [text] && [] + [Heard(classify, text)] == [Heard(classify, text)];
    assert [Heard(classify, text)][..0] == [];
    SameTurn(p, Initially(p), text, classify);
  }

  lemma NextTurnAgrees(p: Process, classify: string -> Option<string>, rest: seq<string>, text: string)
    requires WellFormed(p) && rest != [] && AgreesIfFit(p, classify, rest) && !After(p, Hear(classify, rest)).ended
    ensures AgreesIfFit(p, classify, rest + [text])
  {
    var texts, before := rest + [text], Hear(classify, rest);
    HearSnoc(classify, rest, text);
    assert texts[..|rest|] == rest && (before + [Heard(classify, text)])[..|before|] == before;
    assert TextsFit(texts) <==> TextsFit(rest) && Speakable(text);
    EndedIsTerminal(p, before);
    SameTurn(p, After(p, before), text, classify);
  }

  /** As long as the engine has not ended, the simulator gives its answer, or has refused a request
      of the wrong length. */
  lemma {:induction false} AgreesUnlessRefused(p: Process, classify: string -> Option<string>, texts: seq<string>)
    requires WellFormed(p) && texts != [] && !EndedBefore(p, Hear(classify, texts))
    ensures AgreesIfFit(p, classify, texts)
  {
    var n := |texts| - 1;
    if n == 0 {
      FirstTurnAgrees(p, classify, texts[0]);
      assert texts == [texts[0]];
    } else {
      var rest := texts[..n];
      var before := Hear(classify, rest);
      assert texts == rest + [texts[n]];
      HearSnoc(classify, rest, texts[n]);
      EndedStep(p, Hear(classify, texts), before, Heard(classify, texts[n]));
      EndedIsTerminal(p, before);
      AgreesUnlessRefused(p, classify, rest);
      NextTurnAgrees(p, classify, rest, texts[n]);
    }
  }

  /** Chained through the returned state, the simulator gives the engine's answer exactly as long
      as no earlier answer was terminal, every utterance has 1 to 2000 characters, and the state of
      every earlier answer has 1 to 120. */
  lemma SimulatorAgrees(p: Process, classify: string -> Option<string>, texts: seq<string>)
    requires WellFormed(p) && texts != []
    ensures var intents := Hear(classify, texts);
            Simulated(p, classify, texts) == Success(Answer(p, intents))
            <==> !EndedBefore(p, intents) && TextsFit(texts) && StatesFit(p, intents)
  {
    var intents := Hear(classify, texts);
    if EndedBefore(p, intents) {
      EndedMeaning(p, intents);
      SimulatorSpeaks(p, classify, texts);
    } else {
      AgreesUnlessRefused(p, classify, texts);
    }
  }

  lemma EndedStays(p: Process, intents: seq<string>)
    requires WellFormed(p) && intents != []
    ensures After(p, intents[..|intents| - 1]).ended ==> After(p, intents) == After(p, intents[..|intents| - 1])
  {
  }

  /** In every run the engine is in a declared state, and once it has ended it never moves. */
  lemma {:induction false} EngineStays(p: Process, intents: seq<string>, k: nat)
    requires WellFormed(p) && k <= |intents|
    ensures Declared(p.states, After(p, intents).state)
    ensures After(p, intents[..k]).ended ==> After(p, intents) == After(p, intents[..k])
  {
    if k < |intents| {
      var n := |intents| - 1;
      EngineStays(p, intents[..n], k);
      assert intents[..n][..k] == intents[..k];
      EndedStays(p, intents);
    } else {
      assert intents[..k] == intents;
    }
  }

  /** A process whose second state has the given id. */
  function Detour(far: string): Process {
    Process("a", [State("a", "A", "", false, None, [Transition("go", far)]), State(far, "B", "", false, None, [])])
  }

  function Literally(text: string): Option<string> {
    Some(text)
  }

  lemma DetourWellFormed(far: string)
    requires far != "a" && far != "None"
    ensures WellFormed(Detour(far))
  {
    var states := Detour(far).states;
    assert states[0].id == "a" && states[1].id == far;
    assert Declared(states, "a") && Declared(states, far);
  }

  /** The first answer is given in state `state`, from where the engine has not ended. */
  lemma TwoTurns(p: Process, word: string, state: string)
    requires WellFormed(p) && Handle(p, Initially(p), word).0 == Machine(state, false) && 1 <= |word| <= 2000
    requires Handle(p, Initially(p), word).1.state == state
    ensures Simulated(p, Literally, [word, word]) == Success(Answer(p, [word, word])) <==> Sendable(state)
  {
    var one, two := [word], [word, word];
    assert two[..1] == one && one[..0] == [];
    HearSnoc(Literally, [], word);
    HearSnoc(Literally, one, word);
    assert [] + one == one && one + one == two && Heard(Literally, word) == word;
    EndedMeaning(p, two);
    assert StatesFit(p, one) && StatesFit(p, two) == Sendable(Answer(p, one).state);
    SimulatorAgrees(p, Literally, two);
  }

  /** Two turns that lead through the second state: the simulator follows the engine exactly when
      the id can be sent back. An empty id, or one of more than 120 characters, is refused. */
  lemma DetourFollowed(far: string)
    requires far != "a" && far != "None"
    ensures WellFormed(Detour(far))
    ensures 1 <= |far| <= 120 <==>
            Simulated(Detour(far), Literally, ["go", "go"]) == Success(Answer(Detour(far), ["go", "go"]))
  {
    DetourWellFormed(far);
    TwoTurns(Detour(far), "go", far);
  }

  /** Two turns that stay in the first state: the id of the second does not matter. */
  lemma DetourAvoided(far: string)
    requires far != "a" && far != "None"
    ensures WellFormed(Detour(far))
    ensures Simulated(Detour(far), Literally, ["no", "no"]) == Success(Answer(Detour(far), ["no", "no"]))
  {
    DetourWellFormed(far);
    TwoTurns(Detour(far), "no", "a");
  }

  class Engine {
    const process: Process
    var state: string
    var ended: bool

    constructor (process: Process)
      requires WellFormed(process)
      ensures this.process == process && Machine(state, ended) == Initially(process)
    {
      this.process := process;
      state, ended := Start(process), false;
    }

    method Respond(intent: string) returns (result: FlowResult)
      requires WellFormed(process) && Declared(process.states, state)
      modifies this
      ensures (Machine(state, ended), result) == Handle(process, old(Machine(state, ended)), intent)
    {
      if ended {
        return FlowResult(state, None, None, true, None);
      }
      var current := process.states[Find(process.states, state)];
      var t := TransitionFor(current.transitions, intent);
      if t.None? {
        return FlowResult(state, Some(if current.fallback != "" then current.fallback else SORRY), None, false, None);
      }
      assert GoodState(current, process.states) && GoodTransition(t.value, process.states);
      state := t.value.next;
      var destination := process.states[Find(process.states, state)];
      ended := destination.terminal;
      return FlowResult(state, Some(destination.prompt), Some(state), destination.terminal, destination.action);
    }
  }

  method SimulateTurn(process: Process, at: Option<string>, text: string, classify: string -> Option<string>)
    returns (result: Result<FlowResult, Refusal>)
    ensures result == Simulate(process, at, text, classify)
  {
    if !Speakable(text) || (at.Some? && !Sendable(at.value)) {
      return Failure(BadRequest);
    }
    ValidateMeaning(process);
    var valid := ValidateFlow(process);
    if valid.Failure? {
      return Failure(InvalidProcess(valid.error));
    }
    var engine := new Engine(process);
    if at.Some? && at.value != "" {
      if !Declared(process.states, at.value) {
        return Failure(InvalidState);
      }
      engine.state := at.value;
    }
    var answer := engine.Respond(Heard(classify, text));
    return Success(answer);
  }
}
