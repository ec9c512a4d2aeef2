/**
 * What each version operation changes, field by field, and that it changes nothing else; and what
 * a call runs with.
 */
module VersionEffects {
  import opened Wrappers
  import opened Versions
  import opened VersionHistory

  /** Exactly these versions may differ. */
  ghost predicate VersionsKept(s: State, s1: State, except: set<Id>) {
    forall v :: v in s.versions && v !in except ==> v in s1.versions && s1.versions[v] == s.versions[v]
  }

  ghost predicate AgentsKept(s: State, s1: State, except: set<Id>) {
    forall a :: a in s.agents && a !in except ==> a in s1.agents && s1.agents[a] == s.agents[a]
  }

  /** A new agent is a draft of which nothing was published. Its only version has number 1, the
      given fields and no tools. */
  lemma CreationEffects(s: State, tenant: Id, content: Content, now: int)
    requires Inv(s)
    ensures var s1 := AddAgent(s, tenant, content, now);
            && s.next !in s.agents && s1.agents.Keys == s.agents.Keys + {s.next} && AgentsKept(s, s1, {})
            && s1.agents[s.next] == Agent(tenant, Draft, None, s1.agents[s.next].draft, now)
            && s1.agentTools == s.agentTools && s1.tools == s.tools
    ensures var s1, d := AddAgent(s, tenant, content, now), AddAgent(s, tenant, content, now).agents[s.next].draft;
            CreatedVersion(s, s1, d, Version(tenant, s.next, 1, None, content, now, now))
  {
  }

  ghost predicate CreatedVersion(s: State, s1: State, d: Id, v: Version) {
    && d !in s.versions && s1.versions.Keys == s.versions.Keys + {d} && VersionsKept(s, s1, {})
    && s1.versions[d] == v && ToolsOf(s1, d) == {}
  }

  /** An edit gives exactly the named keys of the draft their new values. Without such an agent
      nothing changes. */
  lemma EditEffects(s: State, tenant: Id, agent: Id, data: Content, now: int)
    requires Inv(s)
    ensures var s1 := UpdateDraft(s, tenant, agent, data, now);
            && (!(agent in s.agents && s.agents[agent].tenant == tenant) ==> s1 == s)
            && (agent in s.agents && s.agents[agent].tenant == tenant ==>
                  var d := s.agents[agent].draft;
                  && d in s.versions && d in s1.versions && s1.versions.Keys == s.versions.Keys
                  && VersionsKept(s, s1, {d}) && s1 == s.(versions := s1.versions)
                  && var before, after := s.versions[d], s1.versions[d];
                  && after == before.(content := after.content, updatedAt := now)
                  && (forall key :: key in after.content <==> key in before.content || key in data)
                  && (forall key :: key in data ==> after.content[key] == data[key])
                  && forall key :: key in before.content && key !in data ==> after.content[key] == before.content[key])
  {
    if agent in s.agents && s.agents[agent].tenant == tenant {
      assert AgentOk(s, agent);
    }
  }

  /** Publishing dates the draft, makes it current and the agent active, and adds a copy of it,
      undated, one number higher and with the same tools, as the new draft. */
  lemma PublicationEffects(s: State, tenant: Id, agent: Id, now: int)
    requires Inv(s) && agent in s.agents && s.agents[agent].tenant == tenant
    ensures var s1, d := Publish(s, tenant, agent, now), s.agents[agent].draft;
            && s1.agents.Keys == s.agents.Keys && AgentsKept(s, s1, {agent}) && s1.tools == s.tools
            && s1.agents[agent]
               == s.agents[agent].(current := Some(d), draft := s.next, status := Active, updatedAt := now)
            && d in s.versions && PublishedVersions(s, s1, d, now)
            && ToolsOf(s1, s.next) == ToolsOf(s, d)
            && forall v :: v != s.next ==> ToolsOf(s1, v) == ToolsOf(s, v)
  {
    assert AgentOk(s, agent);
    PublicationVersions(s, tenant, agent, now);
  }

  ghost predicate PublishedVersions(s: State, s1: State, d: Id, now: int)
    requires d in s.versions
  {
    && s.next !in s.versions && s1.versions.Keys == s.versions.Keys + {s.next} && VersionsKept(s, s1, {d})
    && s1.versions[d] == s.versions[d].(publishedAt := Some(now))
    && s1.versions[s.next] == s.versions[d].(number := s.versions[d].number + 1, publishedAt := None,
                                              createdAt := now, updatedAt := now)
  }

  lemma PublicationVersions(s: State, tenant: Id, agent: Id, now: int)
    requires Fresh(s) && agent in s.agents && s.agents[agent].tenant == tenant && s.agents[agent].draft in s.versions
    ensures PublishedVersions(s, Publish(s, tenant, agent, now), s.agents[agent].draft, now)
  {
  }

  lemma NoPublication(s: State, tenant: Id, agent: Id, now: int)
    requires agent !in s.agents || s.agents[agent].tenant != tenant
    ensures Publish(s, tenant, agent, now) == s
  {
  }

  /** Rolling back changes the agent's record only: the version becomes current and the agent
      active, if the version is one of this agent and tenant and was published. */
  lemma RollbackEffects(s: State, tenant: Id, agent: Id, version: Id, now: int)
    ensures var s1 := Rollback(s, tenant, agent, version, now);
            var may := && agent in s.agents && s.agents[agent].tenant == tenant
                       && version in s.versions && s.versions[version].tenant == tenant
                       && s.versions[version].agent == agent && s.versions[version].publishedAt != None;
            && (!may ==> s1 == s)
            && (may ==>
                  s1 == s.(agents := s.agents[agent := s.agents[agent].(current := Some(version), status := Active,
                                                                        updatedAt := now)]))
  {
  }

  /** Deleting a tenant's tool removes it from the store and from every version, and no other. */
  lemma DeletionEffects(s: State, tenant: Id, tool: Id)
    ensures var s1 := DeleteTool(s, tenant, tool);
            var may := tool in s.tools && s.tools[tool].tenant == tenant;
            && s1 == s.(tools := s1.tools, agentTools := s1.agentTools)
            && (!may ==> s1 == s)
            && (may ==> s1.tools == s.tools - {tool} && forall v :: ToolsOf(s1, v) == ToolsOf(s, v) - {tool})
  {
  }

  /** What a call runs with: the selected version, if it is one of this agent, and those of its
      tools that exist and, when they are MCP tools, are enabled and approved. */
  lemma RuntimeExactly(s: State, agent: Id, selector: Selector, id: Option<Id>)
    requires agent in s.agents ==>
               id == match selector
                     case Current => s.agents[agent].current
                     case TheDraft => Some(s.agents[agent].draft)
                     case Exactly(v) => Some(v)
    ensures var r := GetRuntime(s, agent, selector);
            && (r.Some? <==> agent in s.agents && id.Some? && id.value in s.versions
                             && s.versions[id.value].agent == agent)
            && (r.Some? ==>
                  && r.value.id == id.value && r.value.version == s.versions[id.value]
                  && forall t :: t in r.value.tools <==>
                       && t in ToolsOf(s, id.value) && t in s.tools
                       && (s.tools[t].mcp.Some? ==> s.tools[t].mcp.value.enabled && s.tools[t].mcp.value.approved))
  {
  }
}
