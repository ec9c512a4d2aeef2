/**
 * Which tool lists `set_draft_tools` accepts, and what follows for the tools of all versions.
 */
module DraftTools {
  import opened Wrappers
  import opened Sets
  import opened Versions
  import opened VersionHistory

  predicate Distinct(ids: seq<Id>) {
    forall i, j :: 0 <= i < j < |ids| ==> ids[i] != ids[j]
  }

  predicate AllOwn(s: State, tenant: Id, ids: seq<Id>) {
    forall i :: 0 <= i < |ids| ==> IsOwn(s, tenant, ids[i])
  }

  /** The different requested ids that are the tenant's tools, and those that are not. */
  function Own(s: State, tenant: Id, ids: seq<Id>): set<Id> {
    set t | t in ids && IsOwn(s, tenant, t)
  }

  function Foreign(s: State, tenant: Id, ids: seq<Id>): set<Id> {
    set t | t in ids && !IsOwn(s, tenant, t)
  }

  /** How often an own tool is requested again. */
  function Repeats(s: State, tenant: Id, ids: seq<Id>): nat {
    if ids == [] then 0
    else
      var n := |ids| - 1;
      Repeats(s, tenant, ids[..n]) + if IsOwn(s, tenant, ids[n]) && ids[n] in ids[..n] then 1 else 0
  }

  lemma {:induction false} FoundCounts(s: State, tenant: Id, ids: seq<Id>)
    ensures |Found(s, tenant, ids)| == |Own(s, tenant, ids)| + Repeats(s, tenant, ids)
  {
    if ids != [] {
      var n := |ids| - 1;
      var rest, last := ids[..n], ids[n];
      FoundCounts(s, tenant, rest);
      assert ids == rest + [last];
      assert Own(s, tenant, ids) == Own(s, tenant, rest) + if IsOwn(s, tenant, last) then {last} else {};
    }
  }

  /** A list is accepted exactly when own tools are repeated as often as there are different ids
      that are not own. */
  lemma AcceptsExactly(s: State, tenant: Id, ids: seq<Id>)
    ensures Accepts(s, tenant, ids) <==> Repeats(s, tenant, ids) == |Foreign(s, tenant, ids)|
  {
    FoundCounts(s, tenant, ids);
    assert Elements(ids) == Own(s, tenant, ids) + Foreign(s, tenant, ids);
  }

  lemma {:induction false} NoRepeats(s: State, tenant: Id, ids: seq<Id>)
    ensures Distinct(ids) ==> Repeats(s, tenant, ids) == 0
    ensures AllOwn(s, tenant, ids) && Repeats(s, tenant, ids) == 0 ==> Distinct(ids)
  {
    if ids != [] {
      var n := |ids| - 1;
      NoRepeats(s, tenant, ids[..n]);
      assert forall i :: 0 <= i < n ==> ids[..n][i] == ids[i];
      if ids[n] !in ids[..n] {
        assert forall i :: 0 <= i < n ==> ids[i] != ids[n];
      }
    }
  }

  lemma ForeignNone(s: State, tenant: Id, ids: seq<Id>)
    ensures |Foreign(s, tenant, ids)| == 0 <==> AllOwn(s, tenant, ids)
  {
    if |Foreign(s, tenant, ids)| == 0 {
      forall i | 0 <= i < |ids| ensures IsOwn(s, tenant, ids[i]) {
        assert ids[i] !in Foreign(s, tenant, ids);
      }
    } else {
      var t :| t in Foreign(s, tenant, ids);
      assert t in ids;
    }
  }

  /** A list without repetition is accepted exactly when every id is the tenant's own; a list of
      own tools exactly when nothing is repeated. */
  lemma DistinctAccepted(s: State, tenant: Id, ids: seq<Id>)
    ensures Distinct(ids) ==> (Accepts(s, tenant, ids) <==> AllOwn(s, tenant, ids))
    ensures AllOwn(s, tenant, ids) ==> (Accepts(s, tenant, ids) <==> Distinct(ids))
  {
    AcceptsExactly(s, tenant, ids);
    NoRepeats(s, tenant, ids);
    ForeignNone(s, tenant, ids);
  }

  /** The test of the Postgres store: as many rows found as there are different ids. */
  predicate SqlAccepts(s: State, tenant: Id, ids: seq<Id>) {
    |Own(s, tenant, ids)| == |Elements(ids)|
  }

  /** Counting rows instead of occurrences accepts exactly the lists of own tools, repeated or not. */
  lemma SqlAcceptsOwn(s: State, tenant: Id, ids: seq<Id>)
    ensures SqlAccepts(s, tenant, ids) <==> AllOwn(s, tenant, ids)
  {
    assert Elements(ids) == Own(s, tenant, ids) + Foreign(s, tenant, ids);
    ForeignNone(s, tenant, ids);
  }

  /** An own tool named twice makes room for one that is not: it is attached to the draft. The own
      tool named twice alone is an error. */
  lemma RepeatAdmitsForeign(s: State, tenant: Id, agent: Id, own: Id, foreign: Id)
    requires HasAgent(s, tenant, agent) && IsOwn(s, tenant, own) && !IsOwn(s, tenant, foreign)
    ensures Accepts(s, tenant, [own, own, foreign]) && !Accepts(s, tenant, [own, own])
    ensures ToolsOf(SetDraftTools(s, tenant, agent, [own, own, foreign]), s.agents[agent].draft) == {own, foreign}
  {
    var twice, three := [own, own], [own, own, foreign];
    assert twice[..1] == [own] && three[..2] == twice && [own][..0] == [];
    assert Found(s, tenant, [own]) == [own] && Found(s, tenant, three) == Found(s, tenant, twice) == twice;
    assert Elements(twice) == {own} && Elements(three) == {own, foreign};
  }

  // --------------------------------------------------------------- the tools of every version

  /** Whatever is attached exists and belongs to the version's tenant. */
  ghost predicate AttachedOwn(s: State) {
    forall v :: v in s.agentTools ==>
      v in s.versions && forall t :: t in s.agentTools[v] ==> IsOwn(s, s.versions[v].tenant, t)
  }

  ghost predicate WithoutRepeats(e: Event) {
    e.SetsTools? ==> Distinct(e.ids)
  }

  lemma SetKeepsAttached(s: State, tenant: Id, agent: Id, ids: seq<Id>)
    requires Inv(s) && AttachedOwn(s) && Distinct(ids)
    ensures AttachedOwn(SetDraftTools(s, tenant, agent, ids))
  {
    if HasAgent(s, tenant, agent) && Accepts(s, tenant, ids) {
      DistinctAccepted(s, tenant, ids);
      var draft := s.agents[agent].draft;
      assert AgentOk(s, agent) && Ordered(s, draft, agent);
      forall t | t in Elements(ids) ensures IsOwn(s, tenant, t) {
        var i :| 0 <= i < |ids| && ids[i] == t;
      }
    }
  }

  lemma PublishKeepsAttached(s: State, tenant: Id, agent: Id, now: int)
    requires Inv(s) && AttachedOwn(s)
    ensures AttachedOwn(Publish(s, tenant, agent, now))
  {
    if HasAgent(s, tenant, agent) {
      var draft := s.agents[agent].draft;
      assert forall t :: t in ToolsOf(s, draft) ==> draft in s.agentTools && IsOwn(s, s.versions[draft].tenant, t);
    }
  }

  lemma StepKeepsAttached(s: State, e: Event)
    requires Inv(s) && AttachedOwn(s) && WithoutRepeats(e)
    ensures AttachedOwn(Step(s, e))
  {
    match e
    case SetsTools(tenant, agent, ids) => SetKeepsAttached(s, tenant, agent, ids);
    case Publishes(tenant, agent, now) => PublishKeepsAttached(s, tenant, agent, now);
    case CreatesAgent(tenant, name, now) => CreateKeepsAttached(s, tenant, name, now);
    case Edits(tenant, agent, data, now) => EditKeepsAttached(s, tenant, agent, data, now);
    case RollsBack(_, _, _, _) =>
    case DeletesAgent(_, _) =>
    case _ => ToolsKeepAttached(s, e);
  }

  lemma CreateKeepsAttached(s: State, tenant: Id, name: string, now: int)
    requires Fresh(s) && AttachedOwn(s)
    ensures AttachedOwn(CreateAgent(s, tenant, name, now))
  {
  }

  lemma EditKeepsAttached(s: State, tenant: Id, agent: Id, data: Content, now: int)
    requires AttachedOwn(s)
    ensures AttachedOwn(UpdateDraft(s, tenant, agent, data, now))
  {
  }

  lemma ToolsKeepAttached(s: State, e: Event)
    requires Fresh(s) && AttachedOwn(s) && (e.CreatesTool? || e.UpdatesTool? || e.DeletesTool?)
    ensures AttachedOwn(Step(s, e))
  {
  }

  /** Along every run whose tool lists repeat nothing, each version's tools exist and are the
      tenant's own. */
  lemma {:induction false} AttachedAreOwn(events: seq<Event>)
    requires forall e :: e in events ==> WithoutRepeats(e)
    ensures AttachedOwn(Run(EMPTY, events))
  {
    if events != [] {
      var rest := events[..|events| - 1];
      AttachedAreOwn(rest);
      RunKeepsInv(EMPTY, rest);
      StepKeepsAttached(Run(EMPTY, rest), events[|events| - 1]);
    }
  }
}
