/**
 * What every run of the version operations keeps: the shape of an agent's versions, and the
 * published ones unchanged for ever.
 */
module VersionHistory {
  import opened Wrappers
  import opened Versions

  function UpTo(n: int): set<int>
    decreases n
  {
    if n < 1 then {} else UpTo(n - 1) + {n}
  }

  lemma {:induction false} UpToMeaning(n: int, k: int)
    ensures k in UpTo(n) <==> 1 <= k <= n
    decreases n
  {
    if n >= 1 { UpToMeaning(n - 1, k); }
  }

  predicate VersionOf(s: State, v: Id, agent: Id) {
    v in s.versions && s.versions[v].agent == agent
  }

  function Numbers(s: State, agent: Id): set<int> {
    set v | v in s.versions && VersionOf(s, v, agent) :: s.versions[v].number
  }

  /** The draft is unpublished; the current version is absent or a published one of the agent. */
  predicate Pointers(s: State, a: Id)
    requires a in s.agents
  {
    var agent := s.agents[a];
    && VersionOf(s, agent.draft, a) && s.versions[agent.draft].publishedAt.None?
    && (agent.current.Some? ==>
          VersionOf(s, agent.current.value, a) && s.versions[agent.current.value].publishedAt.Some?)
  }

  /** Every version but the draft is published, and lies below it. */
  predicate Ordered(s: State, v: Id, a: Id)
    requires a in s.agents && VersionOf(s, v, a) && Pointers(s, a)
  {
    var draft := s.agents[a].draft;
    && s.versions[v].tenant == s.agents[a].tenant
    && (v != draft ==> s.versions[v].publishedAt.Some? && s.versions[v].number < s.versions[draft].number)
  }

  /** The agent's version numbers are 1 to n, each once, and the draft has number n. */
  ghost predicate AgentOk(s: State, a: Id)
    requires a in s.agents
  {
    && Pointers(s, a)
    && (forall v | VersionOf(s, v, a) :: Ordered(s, v, a))
    && (forall v, w | VersionOf(s, v, a) && VersionOf(s, w, a) ::
          s.versions[v].number == s.versions[w].number ==> v == w)
    && Numbers(s, a) == UpTo(s.versions[s.agents[a].draft].number)
  }

  /** Identifiers in use are below the counter. */
  ghost predicate Fresh(s: State) {
    && (forall a :: a in s.agents ==> a < s.next)
    && (forall v :: v in s.versions ==> v < s.next && s.versions[v].agent < s.next)
    && (forall v :: v in s.agentTools ==> v < s.next)
    && (forall t :: t in s.tools ==> t < s.next)
  }

  ghost predicate Inv(s: State) {
    Fresh(s) && forall a :: a in s.agents ==> AgentOk(s, a)
  }

  // ------------------------------------------------------------------------ one lemma a step

  predicate SameButContent(v: Version, w: Version) {
    v.tenant == w.tenant && v.agent == w.agent && v.number == w.number && v.publishedAt == w.publishedAt
  }

  /** An agent whose record and whose versions' metadata are untouched stays well-formed. */
  lemma AgentFrame(s: State, s1: State, a: Id)
    requires a in s.agents && AgentOk(s, a) && a in s1.agents
    requires s1.agents[a].current == s.agents[a].current || Pointers(s1, a)
    requires s1.agents[a].draft == s.agents[a].draft && s1.agents[a].tenant == s.agents[a].tenant
    requires forall v | VersionOf(s1, v, a) :: VersionOf(s, v, a)
    requires forall v | VersionOf(s, v, a) :: VersionOf(s1, v, a) && SameButContent(s.versions[v], s1.versions[v])
    ensures AgentOk(s1, a)
  {
    assert Numbers(s1, a) == Numbers(s, a);
    forall v | VersionOf(s1, v, a) ensures Ordered(s1, v, a) {
      assert Ordered(s, v, a);
    }
  }

  lemma CreateKeepsInv(s: State, tenant: Id, name: string, now: int)
    requires Inv(s)
    ensures Inv(CreateAgent(s, tenant, name, now))
  {
    var s1 := CreateAgent(s, tenant, name, now);
    forall b | b in s1.agents ensures AgentOk(s1, b) {
      CreateKeepsAgent(s, tenant, name, now, b);
    }
  }

  lemma CreateKeepsAgent(s: State, tenant: Id, name: string, now: int, b: Id)
    requires Inv(s) && b in CreateAgent(s, tenant, name, now).agents
    ensures AgentOk(CreateAgent(s, tenant, name, now), b)
  {
    if b == s.next {
      CreatedOk(s, tenant, name, now);
    } else {
      assert AgentOk(s, b);
      AgentFrame(s, CreateAgent(s, tenant, name, now), b);
    }
  }

  lemma CreatedOk(s: State, tenant: Id, name: string, now: int)
    requires Fresh(s)
    ensures AgentOk(CreateAgent(s, tenant, name, now), s.next)
  {
    var s1, a := CreateAgent(s, tenant, name, now), s.next;
    assert Numbers(s1, a) == {1} by { assert VersionOf(s1, a + 1, a); }
    assert UpTo(0) == {} && UpTo(1) == {1};
  }

  lemma SameMetadata(s: State, s1: State)
    requires Inv(s) && s1.agents == s.agents && s1.versions.Keys == s.versions.Keys
    requires forall v :: v in s.versions ==> SameButContent(s.versions[v], s1.versions[v])
    ensures forall b :: b in s1.agents ==> AgentOk(s1, b)
  {
    forall b | b in s1.agents ensures AgentOk(s1, b) {
      assert AgentOk(s, b);
      AgentFrame(s, s1, b);
    }
  }

  lemma UpdateKeepsInv(s: State, tenant: Id, agent: Id, data: Content, now: int)
    requires Inv(s)
    ensures Inv(UpdateDraft(s, tenant, agent, data, now))
  {
    var s1 := UpdateDraft(s, tenant, agent, data, now);
    SameMetadata(s, s1);
  }

  lemma PublishKeepsInv(s: State, tenant: Id, agent: Id, now: int)
    requires Inv(s)
    ensures Inv(Publish(s, tenant, agent, now))
  {
    var s1 := Publish(s, tenant, agent, now);
    PublishKeepsFresh(s, tenant, agent, now);
    forall b | b in s1.agents ensures AgentOk(s1, b) {
      PublishKeepsAgent(s, tenant, agent, now, b);
    }
  }

  lemma PublishKeepsFresh(s: State, tenant: Id, agent: Id, now: int)
    requires Fresh(s)
    ensures Fresh(Publish(s, tenant, agent, now))
  {
  }

  lemma PublishKeepsAgent(s: State, tenant: Id, agent: Id, now: int, b: Id)
    requires Inv(s) && b in s.agents
    ensures b in Publish(s, tenant, agent, now).agents && AgentOk(Publish(s, tenant, agent, now), b)
  {
    assert AgentOk(s, b);
    if HasAgent(s, tenant, agent) {
      assert AgentOk(s, agent);
      if b == agent { PublishedOk(s, tenant, agent, now); } else { UnpublishedOk(s, tenant, agent, now, b); }
    }
  }

  lemma UnpublishedOk(s: State, tenant: Id, agent: Id, now: int, b: Id)
    requires Fresh(s) && HasAgent(s, tenant, agent) && AgentOk(s, agent) && b in s.agents && b != agent && AgentOk(s, b)
    ensures AgentOk(Publish(s, tenant, agent, now), b)
  {
    AgentFrame(s, Publish(s, tenant, agent, now), b);
  }

  lemma PublishedOk(s: State, tenant: Id, agent: Id, now: int)
    requires Fresh(s) && HasAgent(s, tenant, agent) && AgentOk(s, agent)
    ensures AgentOk(Publish(s, tenant, agent, now), agent)
  {
    var s1 := Publish(s, tenant, agent, now);
    PublishedNumbers(s, tenant, agent, now);
    assert forall v :: VersionOf(s1, v, agent) <==> v == s.next || VersionOf(s, v, agent);
    assert forall v :: VersionOf(s, v, agent) ==> s1.versions[v].number == s.versions[v].number && Ordered(s, v, agent);
    DraftIsPositive(s, agent);
  }

  lemma PublishedNumbers(s: State, tenant: Id, agent: Id, now: int)
    requires Fresh(s) && HasAgent(s, tenant, agent) && VersionOf(s, s.agents[agent].draft, agent)
    ensures Numbers(Publish(s, tenant, agent, now), agent) ==
              Numbers(s, agent) + {s.versions[s.agents[agent].draft].number + 1}
  {
    var s1, draft := Publish(s, tenant, agent, now), s.agents[agent].draft;
    assert forall v :: VersionOf(s1, v, agent) <==> v == s.next || VersionOf(s, v, agent);
    assert forall v :: VersionOf(s, v, agent) ==>
             VersionOf(s1, v, agent) && s1.versions[v].number == s.versions[v].number;
    assert VersionOf(s1, s.next, agent) && s1.versions[s.next].number == s.versions[draft].number + 1;
    forall k | k in Numbers(s, agent) ensures k in Numbers(s1, agent) {
      var v :| VersionOf(s, v, agent) && s.versions[v].number == k;
      assert VersionOf(s1, v, agent) && s1.versions[v].number == k;
    }
    forall k | k in Numbers(s1, agent) ensures k in Numbers(s, agent) + {s.versions[s.agents[agent].draft].number + 1} {
      var v :| VersionOf(s1, v, agent) && s1.versions[v].number == k;
      assert v != s.next ==> VersionOf(s, v, agent) && s.versions[v].number == k;
    }
  }

  lemma DraftIsPositive(s: State, agent: Id)
    requires agent in s.agents && AgentOk(s, agent)
    ensures s.versions[s.agents[agent].draft].number >= 1
  {
    var n := s.versions[s.agents[agent].draft].number;
    assert n in Numbers(s, agent);
    UpToMeaning(n, n);
  }

  lemma RollbackKeepsInv(s: State, tenant: Id, agent: Id, version: Id, now: int)
    requires Inv(s)
    ensures Inv(Rollback(s, tenant, agent, version, now))
  {
    var s1 := Rollback(s, tenant, agent, version, now);
    forall b | b in s1.agents ensures AgentOk(s1, b) {
      assert AgentOk(s, b);
      RolledBackOk(s, tenant, agent, version, now, b);
    }
  }

  lemma RolledBackOk(s: State, tenant: Id, agent: Id, version: Id, now: int, b: Id)
    requires b in s.agents && AgentOk(s, b)
    ensures b in Rollback(s, tenant, agent, version, now).agents && AgentOk(Rollback(s, tenant, agent, version, now), b)
  {
    AgentFrame(s, Rollback(s, tenant, agent, version, now), b);
  }

  /** The remaining steps leave versions and the surviving agents alone. */
  lemma OthersKeepInv(s: State, e: Event)
    requires Inv(s) && (e.SetsTools? || e.DeletesAgent? || e.CreatesTool? || e.UpdatesTool? || e.DeletesTool?)
    ensures Inv(Step(s, e))
  {
    SameVersions(s, Step(s, e));
    OthersKeepFresh(s, e);
  }

  lemma OthersKeepFresh(s: State, e: Event)
    requires Inv(s) && (e.SetsTools? || e.DeletesAgent? || e.CreatesTool? || e.UpdatesTool? || e.DeletesTool?)
    ensures Fresh(Step(s, e))
  {
    if e.SetsTools? && e.agent in s.agents { assert Pointers(s, e.agent); }
  }

  lemma SameVersions(s: State, s1: State)
    requires Inv(s) && s1.versions == s.versions
    requires forall b :: b in s1.agents ==> b in s.agents && s1.agents[b] == s.agents[b]
    ensures forall b :: b in s1.agents ==> AgentOk(s1, b)
  {
    forall b | b in s1.agents ensures AgentOk(s1, b) {
      assert AgentOk(s, b);
      AgentFrame(s, s1, b);
    }
  }

  lemma StepKeepsInv(s: State, e: Event)
    requires Inv(s)
    ensures Inv(Step(s, e))
  {
    match e
    case CreatesAgent(tenant, name, now) => CreateKeepsInv(s, tenant, name, now);
    case Edits(tenant, agent, data, now) => UpdateKeepsInv(s, tenant, agent, data, now);
    case Publishes(tenant, agent, now) => PublishKeepsInv(s, tenant, agent, now);
    case RollsBack(tenant, agent, version, now) => RollbackKeepsInv(s, tenant, agent, version, now);
    case _ => OthersKeepInv(s, e);
  }

  // ------------------------------------------------------------------------- over whole runs

  function Run(s: State, events: seq<Event>): State {
    if events == [] then s else Step(Run(s, events[..|events| - 1]), events[|events| - 1])
  }

  lemma {:induction false} RunKeepsInv(s: State, events: seq<Event>)
    requires Inv(s)
    ensures Inv(Run(s, events))
  {
    if events != [] {
      RunKeepsInv(s, events[..|events| - 1]);
      StepKeepsInv(Run(s, events[..|events| - 1]), events[|events| - 1]);
    }
  }

  const EMPTY := State(map[], map[], map[], map[], 0)

  predicate PublishedAs(s: State, v: Id, agent: Id, k: int) {
    VersionOf(s, v, agent) && s.versions[v].publishedAt.Some? && s.versions[v].number == k
  }

  ghost predicate IsPublishedNumber(s: State, agent: Id, k: int) {
    exists v :: PublishedAs(s, v, agent, k)
  }

  /** Every run leaves each agent with an unpublished draft numbered n, a current version that is
      absent or published, and published versions numbered exactly 1 to n - 1, each once. */
  lemma VersionsAreNumbered(events: seq<Event>, agent: Id)
    requires agent in Run(EMPTY, events).agents
    ensures var s := Run(EMPTY, events);
            && Pointers(s, agent)
            && (forall k :: 1 <= k < s.versions[s.agents[agent].draft].number <==> IsPublishedNumber(s, agent, k))
            && (forall k, v, w | PublishedAs(s, v, agent, k) && PublishedAs(s, w, agent, k) :: v == w)
  {
    RunKeepsInv(EMPTY, events);
    AgentIsNumbered(Run(EMPTY, events), agent);
  }

  lemma AgentIsNumbered(s: State, agent: Id)
    requires agent in s.agents && AgentOk(s, agent)
    ensures Pointers(s, agent)
    ensures forall k :: 1 <= k < s.versions[s.agents[agent].draft].number <==> IsPublishedNumber(s, agent, k)
    ensures forall k, v, w | PublishedAs(s, v, agent, k) && PublishedAs(s, w, agent, k) :: v == w
  {
    forall k ensures 1 <= k < s.versions[s.agents[agent].draft].number <==> IsPublishedNumber(s, agent, k) {
      PublishedBelowDraft(s, agent, k);
    }
  }

  lemma PublishedBelowDraft(s: State, agent: Id, k: int)
    requires agent in s.agents && AgentOk(s, agent)
    ensures 1 <= k < s.versions[s.agents[agent].draft].number <==> IsPublishedNumber(s, agent, k)
  {
    var n := s.versions[s.agents[agent].draft].number;
    UpToMeaning(n, k);
    if 1 <= k < n {
      assert k in Numbers(s, agent);
      var v :| VersionOf(s, v, agent) && s.versions[v].number == k;
      assert Ordered(s, v, agent) && PublishedAs(s, v, agent, k);
    }
    forall v | PublishedAs(s, v, agent, k) ensures 1 <= k < n {
      assert Ordered(s, v, agent) && k in Numbers(s, agent);
    }
  }

  /** The tools a run deletes. */
  function Deleted(s: State, events: seq<Event>): set<Id> {
    if events == [] then {}
    else
      var rest := events[..|events| - 1];
      Deleted(s, rest) + DeletedBy(Run(s, rest), events[|events| - 1])
  }

  function DeletedBy(s: State, e: Event): set<Id> {
    if e.DeletesTool? && IsOwn(s, e.tenant, e.tool) then {e.tool} else {}
  }

  /** Published versions are as they were, and so are their tools, without those in `gone`. */
  ghost predicate Kept(s: State, s1: State, gone: set<Id>) {
    forall v | v in s.versions && s.versions[v].publishedAt.Some? ::
      v in s1.versions && s1.versions[v] == s.versions[v] && ToolsOf(s1, v) == ToolsOf(s, v) - gone
  }

  lemma StepKeepsHistory(s: State, e: Event)
    requires Inv(s)
    ensures Kept(s, Step(s, e), DeletedBy(s, e))
  {
    if e.Edits? {
      EditKeepsHistory(s, e.tenant, e.agent, e.data, e.now);
    } else if e.SetsTools? {
      SetKeepsHistory(s, e.tenant, e.agent, e.ids);
    } else if e.Publishes? {
      PublishKeepsHistory(s, e.tenant, e.agent, e.now);
    } else {
      OthersKeepHistory(s, e);
    }
  }

  lemma OthersKeepHistory(s: State, e: Event)
    requires Fresh(s) && !e.Edits? && !e.SetsTools? && !e.Publishes?
    ensures Kept(s, Step(s, e), DeletedBy(s, e))
  {
    if e.DeletesTool? {
      DeletionKeepsHistory(s, e.tenant, e.tool);
    } else {
      OthersKeepVersions(s, e);
      SameHistory(s, Step(s, e));
    }
  }

  lemma OthersKeepVersions(s: State, e: Event)
    requires Fresh(s) && !e.Edits? && !e.SetsTools? && !e.Publishes? && !e.DeletesTool?
    ensures Step(s, e).agentTools == s.agentTools
    ensures forall v :: v in s.versions ==> v in Step(s, e).versions && Step(s, e).versions[v] == s.versions[v]
  {
    if e.CreatesAgent? {
      CreationKeepsVersions(s, e.tenant, e.name, e.now);
    } else {
      assert Step(s, e).versions == s.versions && Step(s, e).agentTools == s.agentTools;
    }
  }

  lemma CreationKeepsVersions(s: State, tenant: Id, name: string, now: int)
    requires Fresh(s)
    ensures var s1 := CreateAgent(s, tenant, name, now);
            && s1.agentTools == s.agentTools
            && forall v :: v in s.versions ==> v in s1.versions && s1.versions[v] == s.versions[v]
  {
  }

  lemma SameHistory(s: State, s1: State)
    requires s1.agentTools == s.agentTools
    requires forall v :: v in s.versions ==> v in s1.versions && s1.versions[v] == s.versions[v]
    ensures Kept(s, s1, {})
  {
  }

  lemma EditKeepsHistory(s: State, tenant: Id, agent: Id, data: Content, now: int)
    requires Inv(s)
    ensures Kept(s, UpdateDraft(s, tenant, agent, data, now), {})
  {
  }

  lemma SetKeepsHistory(s: State, tenant: Id, agent: Id, ids: seq<Id>)
    requires Inv(s)
    ensures Kept(s, SetDraftTools(s, tenant, agent, ids), {})
  {
    forall v | v in s.versions && s.versions[v].publishedAt.Some?
      ensures agent in s.agents ==> s.agents[agent].draft != v
    {
      DraftIsNot(s, agent, v);
    }
  }

  lemma PublishKeepsHistory(s: State, tenant: Id, agent: Id, now: int)
    requires Inv(s)
    ensures Kept(s, Publish(s, tenant, agent, now), {})
  {
    forall v | v in s.versions && s.versions[v].publishedAt.Some?
      ensures agent in s.agents ==> s.agents[agent].draft != v
    {
      DraftIsNot(s, agent, v);
    }
  }

  lemma DeletionKeepsHistory(s: State, tenant: Id, tool: Id)
    ensures Kept(s, DeleteTool(s, tenant, tool), if IsOwn(s, tenant, tool) then {tool} else {})
  {
  }

  lemma DraftIsNot(s: State, agent: Id, v: Id)
    requires Inv(s) && v in s.versions && s.versions[v].publishedAt.Some?
    ensures agent in s.agents ==> s.agents[agent].draft != v
  {
    assert agent in s.agents ==> Pointers(s, agent);
  }

  lemma KeptTransitive(s: State, s1: State, s2: State, gone: set<Id>, more: set<Id>)
    requires Kept(s, s1, gone) && Kept(s1, s2, more)
    ensures Kept(s, s2, gone + more)
  {
  }

  /** Published history is immutable: a published version never changes, and of its tools exactly
      the deleted ones go. */
  lemma {:induction false} HistoryIsImmutable(s: State, events: seq<Event>)
    requires Inv(s)
    ensures Kept(s, Run(s, events), Deleted(s, events))
  {
    if events != [] {
      var rest, last := events[..|events| - 1], events[|events| - 1];
      HistoryIsImmutable(s, rest);
      RunKeepsInv(s, rest);
      StepKeepsHistory(Run(s, rest), last);
      KeptTransitive(s, Run(s, rest), Run(s, events), Deleted(s, rest), DeletedBy(Run(s, rest), last));
    }
  }

  /** The identifiers have been used, and no tool has them now. */
  predicate AreGone(gone: set<Id>, s: State) {
    gone !! s.tools.Keys && forall t :: t in gone ==> t < s.next
  }

  /** A deleted tool does not come back. */
  lemma {:induction false} DeletedStayGone(s: State, events: seq<Event>)
    requires Inv(s)
    ensures AreGone(Deleted(s, events), Run(s, events))
  {
    if events != [] {
      var rest, last := events[..|events| - 1], events[|events| - 1];
      DeletedStayGone(s, rest);
      RunKeepsInv(s, rest);
      GoneStep(Deleted(s, rest), Run(s, rest), last);
    }
  }

  lemma GoneStep(gone: set<Id>, s: State, e: Event)
    requires Fresh(s) && AreGone(gone, s)
    ensures AreGone(gone + DeletedBy(s, e), Step(s, e))
  {
    StepCreates(s, e);
    if e.DeletesTool? { assert DeletedBy(s, e) !! Step(s, e).tools.Keys; }
  }

  /** Tools are created with identifiers that were never used. */
  lemma StepCreates(s: State, e: Event)
    ensures s.next <= Step(s, e).next && forall t :: t in Step(s, e).tools ==> t in s.tools || t >= s.next
  {
  }

  /** However the store has changed since, rolling back to a published version makes calls run
      with it exactly as it was, with those of its tools that still exist and may be used. */
  lemma RollbackRestores(s: State, events: seq<Event>, tenant: Id, agent: Id, version: Id, now: int)
    requires Inv(s) && CanRollback(s, tenant, agent, version) && agent in Run(s, events).agents
    ensures var later := Run(s, events);
            GetRuntime(Rollback(later, tenant, agent, version, now), agent, Current)
            == Some(Runtime(version, s.versions[version], UsableTools(later, ToolsOf(s, version))))
  {
    HistoryIsImmutable(s, events);
    DeletedStayGone(s, events);
    RunKeepsInv(s, events);
    assert AreGone(Deleted(s, events), Run(s, events));
    RollbackNow(s, Run(s, events), Deleted(s, events), tenant, agent, version, now);
  }

  lemma RollbackNow(s: State, later: State, gone: set<Id>, tenant: Id, agent: Id, version: Id, now: int)
    requires CanRollback(s, tenant, agent, version) && Kept(s, later, gone) && gone !! later.tools.Keys
    requires agent in later.agents && AgentOk(later, agent)
    ensures GetRuntime(Rollback(later, tenant, agent, version, now), agent, Current)
            == Some(Runtime(version, s.versions[version], UsableTools(later, ToolsOf(s, version))))
  {
    assert VersionOf(later, version, agent) && Ordered(later, version, agent);
    RuntimeTools(s, later, Rollback(later, tenant, agent, version, now), gone, version);
  }

  lemma RuntimeTools(s: State, later: State, rolled: State, gone: set<Id>, version: Id)
    requires ToolsOf(later, version) == ToolsOf(s, version) - gone && gone !! later.tools.Keys
    requires rolled.tools == later.tools && rolled.agentTools == later.agentTools
    ensures UsableTools(rolled, ToolsOf(rolled, version)) == UsableTools(later, ToolsOf(s, version))
  {
  }

  /** Publishing makes the draft what calls run with and changes neither its content nor its
      tools; the new draft starts as a copy. */
  lemma PublishShowsDraft(s: State, tenant: Id, agent: Id, now: int)
    requires Inv(s) && HasAgent(s, tenant, agent)
    ensures var s1 := Publish(s, tenant, agent, now);
            var before, after := GetRuntime(s, agent, TheDraft), GetRuntime(s1, agent, Current);
            var copy := GetRuntime(s1, agent, TheDraft);
            && before.Some? && after.Some? && copy.Some?
            && after.value == before.value.(version := before.value.version.(publishedAt := Some(now)))
            && copy.value.tools == after.value.tools && copy.value.version.content == after.value.version.content
            && copy.value.version.number == after.value.version.number + 1
  {
    assert AgentOk(s, agent);
    var d := s.agents[agent].draft;
    var s1 := Publish(s, tenant, agent, now);
    assert ToolsOf(s1, d) == ToolsOf(s, d) && ToolsOf(s1, s.next) == ToolsOf(s, d);
  }

  /** Publish, anything at all, roll back: the content and tools of the draft that was published. */
  lemma RollbackAfterPublish(s: State, tenant: Id, agent: Id, publishedAt: int, events: seq<Event>, now: int)
    requires Inv(s) && HasAgent(s, tenant, agent) && agent in Run(Publish(s, tenant, agent, publishedAt), events).agents
    ensures var later := Run(Publish(s, tenant, agent, publishedAt), events);
            var d := s.agents[agent].draft;
            var r := GetRuntime(Rollback(later, tenant, agent, d, now), agent, Current);
            && d in s.versions && r.Some? && r.value.id == d
            && r.value.version == s.versions[d].(publishedAt := Some(publishedAt))
            && r.value.tools == UsableTools(later, ToolsOf(s, d))
  {
    assert AgentOk(s, agent);
    var s1, d := Publish(s, tenant, agent, publishedAt), s.agents[agent].draft;
    PublishKeepsInv(s, tenant, agent, publishedAt);
    assert Ordered(s, d, agent);
    assert ToolsOf(s1, d) == ToolsOf(s, d);
    RollbackRestores(s1, events, tenant, agent, d, now);
  }
}
