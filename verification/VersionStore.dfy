/**
 * The repository's version operations, which update the shared records in place. What they need
 * of the store is part of `VersionHistory.Inv`, which every one of them keeps.
 */
module VersionStore {
  import opened Wrappers
  import opened Versions
  import opened VersionHistory

  class VersionRepository {
    var agents: map<Id, Agent>
    var versions: map<Id, Version>
    var agentTools: map<Id, set<Id>>
    var tools: map<Id, Tool>
    var next: Id

    ghost function State(): State reads this {
      Versions.State(agents, versions, agentTools, tools, next)
    }

    constructor ()
      ensures State() == EMPTY
    {
      agents, versions, agentTools, tools, next := map[], map[], map[], map[], 0;
    }

    method GetAgent(tenant: Id, agent: Id) returns (found: Option<Agent>)
      ensures found == if HasAgent(State(), tenant, agent) then Some(agents[agent]) else None
    {
      if agent in agents && agents[agent].tenant == tenant {
        return Some(agents[agent]);
      }
      return None;
    }

    method CreateAgent(tenant: Id, name: string, now: int) returns (agent: Id)
      modifies this
      ensures State() == Versions.CreateAgent(old(State()), tenant, name, now)
      ensures agent == old(next) && agent in agents
    {
      agent := next;
      var draft := next + 1;
      next := next + 2;
      agents := agents[agent := Agent(tenant, Draft, None, draft, now)];
      versions := versions[draft := Version(tenant, agent, 1, None, Initial(name), now, now)];
    }

    method UpdateDraft(tenant: Id, agent: Id, data: Content, now: int) returns (draft: Option<Version>)
      requires agent in agents ==> Pointers(State(), agent)
      modifies this
      ensures State() == Versions.UpdateDraft(old(State()), tenant, agent, data, now)
      ensures draft.Some? <==> HasAgent(State(), tenant, agent)
      ensures draft.Some? ==>
                agent in agents && agents[agent].draft in versions && draft.value == versions[agents[agent].draft]
    {
      var found := GetAgent(tenant, agent);
      if found.None? {
        return None;
      }
      var id := found.value.draft;
      if versions[id].publishedAt.Some? {
        return None;
      }
      versions := versions[id := versions[id].(content := versions[id].content + data)];
      versions := versions[id := versions[id].(updatedAt := now)];
      assert versions == old(versions)[id := versions[id]];
      return Some(versions[id]);
    }

    /** None: no such agent. Otherwise the tools found, or an error when their number is not that of
        the different ids. */
    method SetDraftTools(tenant: Id, agent: Id, ids: seq<Id>) returns (done: Result<Option<seq<Id>>, string>)
      modifies this
      ensures State() == Versions.SetDraftTools(old(State()), tenant, agent, ids)
      ensures done.Failure? <==> HasAgent(State(), tenant, agent) && !Accepts(old(State()), tenant, ids)
      ensures done.Success? ==>
                done.value == if HasAgent(State(), tenant, agent) then Some(Found(old(State()), tenant, ids)) else None
    {
      var agentRecord := GetAgent(tenant, agent);
      if agentRecord.None? {
        return Success(None);
      }
      var found: seq<Id> := [];
      for i := 0 to |ids|
        invariant found == Found(State(), tenant, ids[..i])
      {
        assert ids[..i + 1][..i] == ids[..i];
        if ids[i] in tools && tools[ids[i]].tenant == tenant {
          found := found + [ids[i]];
        }
      }
      assert ids[..|ids|] == ids;
      if |found| != |Elements(ids)| {
        return Failure("one or more tools do not belong to tenant");
      }
      agentTools := agentTools[agentRecord.value.draft := Elements(ids)];
      return Success(Some(found));
    }

    method PublishAgent(tenant: Id, agent: Id, now: int) returns (result: Option<Agent>)
      requires agent in agents ==> Pointers(State(), agent)
      modifies this
      ensures State() == Publish(old(State()), tenant, agent, now)
      ensures result == if HasAgent(State(), tenant, agent) then Some(agents[agent]) else None
    {
      var found := GetAgent(tenant, agent);
      if found.None? {
        return None;
      }
      var id := found.value.draft;
      versions := versions[id := versions[id].(publishedAt := Some(now))];
      var published := versions[id];
      var copy := next;
      next := next + 1;
      var following := published.(number := published.number + 1, publishedAt := None,
                                  createdAt := now, updatedAt := now);
      versions := versions[copy := following];
      agentTools := agentTools[copy := if id in agentTools then agentTools[id] else {}];
      agents := agents[agent := agents[agent].(current := Some(id), draft := copy, status := Active)];
      agents := agents[agent := agents[agent].(updatedAt := now)];
      assert agents == old(agents)[agent := agents[agent]];
      return Some(agents[agent]);
    }

    method RollbackAgent(tenant: Id, agent: Id, version: Id, now: int) returns (restored: Option<Agent>)
      modifies this
      ensures State() == Rollback(old(State()), tenant, agent, version, now)
      ensures restored.Some? <==> CanRollback(old(State()), tenant, agent, version)
      ensures restored.Some? ==> agent in agents && restored.value == agents[agent]
    {
      var found := GetAgent(tenant, agent);
      if found.None? || version !in versions {
        return None;
      }
      var target := versions[version];
      if target.tenant != tenant || target.agent != agent || target.publishedAt.None? {
        return None;
      }
      agents := agents[agent := agents[agent].(current := Some(version), status := Active)];
      agents := agents[agent := agents[agent].(updatedAt := now)];
      assert agents == old(agents)[agent := agents[agent]];
      return Some(agents[agent]);
    }

    method DeleteTool(tenant: Id, tool: Id) returns (deleted: bool)
      modifies this
      ensures State() == Versions.DeleteTool(old(State()), tenant, tool)
      ensures deleted <==> tool in old(tools) && old(tools)[tool].tenant == tenant
    {
      if tool !in tools || tools[tool].tenant != tenant {
        return false;
      }
      tools := tools - {tool};
      agentTools := map v | v in agentTools :: agentTools[v] - {tool};
      return true;
    }
  }
}
