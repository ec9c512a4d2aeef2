/**
 * Agent versions: one editable draft per agent, published versions, and rollback
 * (apps/api/voiceos_api/repository.py, class MemoryRepository, and store.py).
 */
module Versions {
  import opened Wrappers

  type Id = nat
  type Content = map<string, string>

  datatype Version = Version(tenant: Id, agent: Id, number: int, publishedAt: Option<int>, content: Content,
                             createdAt: int, updatedAt: int)

  datatype Status = Draft | Active

  datatype Agent = Agent(tenant: Id, status: Status, current: Option<Id>, draft: Id, updatedAt: int)

  /** `mcp` is absent for the other kinds of tool. */
  datatype Tool = Tool(tenant: Id, name: string, mcp: Option<McpState>)
  datatype McpState = McpState(enabled: bool, approved: bool)

  /** Identifiers are handed out by a counter. */
  datatype State = State(agents: map<Id, Agent>, versions: map<Id, Version>, agentTools: map<Id, set<Id>>,
                         tools: map<Id, Tool>, next: Id)

  /** The fields of a new draft; structured values are given by their JSON text. */
  function Initial(name: string): Content {
    map["system_prompt" := "Você é um agente de voz cordial e objetivo.",
        "greeting" := "Olá! Aqui é " + name + ". Como posso ajudar?",
        "language" := "pt-BR",
        "extra_languages" := "[]",
        "llm" := "{\"provider\": \"anthropic\", \"temperature\": 0.3, \"max_tokens\": 350}",
        "stt" := "{\"provider\": \"deepgram\", \"model\": \"nova-3\"}",
        "tts" := "{\"provider\": \"elevenlabs\", \"model\": \"eleven_flash_v2_5\"}",
        "turn_config" := "{\"allow_interruptions\": true}",
        "behavior" := "{\"max_call_duration_s\": 900}",
        "knowledge_base_id" := "null",
        "rag" := "{\"enabled\": false}",
        "variables" := "{}"]
  }

  function AddAgent(s: State, tenant: Id, content: Content, now: int): State {
    var agent, draft := s.next, s.next + 1;
    s.(agents := s.agents[agent := Agent(tenant, Draft, None, draft, now)],
       versions := s.versions[draft := Version(tenant, agent, 1, None, content, now, now)],
       next := s.next + 2)
  }

  function CreateAgent(s: State, tenant: Id, name: string, now: int): State {
    AddAgent(s, tenant, Initial(name), now)
  }

  predicate HasAgent(s: State, tenant: Id, agent: Id) {
    agent in s.agents && s.agents[agent].tenant == tenant
  }

  function UpdateDraft(s: State, tenant: Id, agent: Id, data: Content, now: int): State {
    if !HasAgent(s, tenant, agent) || s.agents[agent].draft !in s.versions then s
    else
      var id := s.agents[agent].draft;
      var draft := s.versions[id];
      if draft.publishedAt.Some? then s
      else s.(versions := s.versions[id := draft.(content := draft.content + data, updatedAt := now)])
  }

  predicate IsOwn(s: State, tenant: Id, tool: Id) {
    tool in s.tools && s.tools[tool].tenant == tenant
  }

  /** The requested tools that `get_tool` finds, one for every occurrence. */
  function Found(s: State, tenant: Id, ids: seq<Id>): (r: seq<Id>)
    ensures |r| <= |ids|
  {
    if ids == [] then []
    else
      var n := |ids| - 1;
      Found(s, tenant, ids[..n]) + if IsOwn(s, tenant, ids[n]) then [ids[n]] else []
  }

  function Elements(ids: seq<Id>): set<Id> {
    set t | t in ids
  }

  /** The test of `set_draft_tools`: as many found as there are different ids. */
  predicate Accepts(s: State, tenant: Id, ids: seq<Id>) {
    |Found(s, tenant, ids)| == |Elements(ids)|
  }

  function SetDraftTools(s: State, tenant: Id, agent: Id, ids: seq<Id>): State {
    if HasAgent(s, tenant, agent) && Accepts(s, tenant, ids)
    then s.(agentTools := s.agentTools[s.agents[agent].draft := Elements(ids)]) else s
  }

  function ToolsOf(s: State, version: Id): set<Id> {
    if version in s.agentTools then s.agentTools[version] else {}
  }

  /** The draft becomes the current version and a copy of it, one number higher, the new draft. */
  function Publish(s: State, tenant: Id, agent: Id, now: int): State {
    if !HasAgent(s, tenant, agent) || s.agents[agent].draft !in s.versions then s
    else
      var a, id, copy := s.agents[agent], s.agents[agent].draft, s.next;
      var published := s.versions[id].(publishedAt := Some(now));
      s.(versions := s.versions[id := published]
                     [copy := published.(number := published.number + 1, publishedAt := None,
                                         createdAt := now, updatedAt := now)],
         agentTools := s.agentTools[copy := ToolsOf(s, id)],
         agents := s.agents[agent := a.(current := Some(id), draft := copy, status := Active, updatedAt := now)],
         next := s.next + 1)
  }

  /** The version exists, belongs to the agent and was published. */
  predicate CanRollback(s: State, tenant: Id, agent: Id, version: Id) {
    && HasAgent(s, tenant, agent)
    && version in s.versions && s.versions[version].tenant == tenant && s.versions[version].agent == agent
    && s.versions[version].publishedAt.Some?
  }

  function Rollback(s: State, tenant: Id, agent: Id, version: Id, now: int): (r: State)
    ensures r == s.(agents := r.agents)
  {
    if CanRollback(s, tenant, agent, version)
    then s.(agents := s.agents[agent := s.agents[agent].(current := Some(version), status := Active, updatedAt := now)])
    else s
  }

  function DeleteAgent(s: State, tenant: Id, agent: Id): (r: State)
    ensures r == s.(agents := r.agents)
  {
    if HasAgent(s, tenant, agent) then s.(agents := s.agents - {agent}) else s
  }

  function CreateTool(s: State, tenant: Id, name: string, mcp: Option<McpState>): (r: State)
    ensures r == s.(tools := r.tools, next := r.next)
  {
    s.(tools := s.tools[s.next := Tool(tenant, name, mcp)], next := s.next + 1)
  }

  function UpdateTool(s: State, tenant: Id, tool: Id, name: string, mcp: Option<McpState>): (r: State)
    ensures r == s.(tools := r.tools)
  {
    if tool in s.tools && s.tools[tool].tenant == tenant
    then s.(tools := s.tools[tool := Tool(tenant, name, mcp)]) else s
  }

  function DeleteTool(s: State, tenant: Id, tool: Id): State {
    if tool in s.tools && s.tools[tool].tenant == tenant
    then s.(tools := s.tools - {tool}, agentTools := map v | v in s.agentTools :: s.agentTools[v] - {tool})
    else s
  }

  datatype Selector = Current | TheDraft | Exactly(version: Id)

  datatype Runtime = Runtime(id: Id, version: Version, tools: set<Id>)

  predicate Usable(tool: Tool) {
    tool.mcp.None? || (tool.mcp.value.enabled && tool.mcp.value.approved)
  }

  function UsableTools(s: State, ids: set<Id>): set<Id> {
    set t | t in ids && t in s.tools && Usable(s.tools[t])
  }

  /** What a call runs with. Tool records are looked up when the call starts. */
  function GetRuntime(s: State, agent: Id, selector: Selector): Option<Runtime> {
    if agent !in s.agents then None
    else
      var id := match selector
        case Current => s.agents[agent].current
        case TheDraft => Some(s.agents[agent].draft)
        case Exactly(v) => Some(v);
      if id.None? || id.value !in s.versions || s.versions[id.value].agent != agent then None
      else Some(Runtime(id.value, s.versions[id.value], UsableTools(s, ToolsOf(s, id.value))))
  }

  datatype Event =
    | CreatesAgent(tenant: Id, name: string, now: int)
    | Edits(tenant: Id, agent: Id, data: Content, now: int)
    | SetsTools(tenant: Id, agent: Id, ids: seq<Id>)
    | Publishes(tenant: Id, agent: Id, now: int)
    | RollsBack(tenant: Id, agent: Id, version: Id, now: int)
    | DeletesAgent(tenant: Id, agent: Id)
    | CreatesTool(tenant: Id, name: string, mcp: Option<McpState>)
    | UpdatesTool(tenant: Id, tool: Id, name: string, mcp: Option<McpState>)
    | DeletesTool(tenant: Id, tool: Id)

  function Step(s: State, e: Event): State {
    match e
    case CreatesAgent(tenant, name, now) => CreateAgent(s, tenant, name, now)
    case Edits(tenant, agent, data, now) => UpdateDraft(s, tenant, agent, data, now)
    case SetsTools(tenant, agent, ids) => SetDraftTools(s, tenant, agent, ids)
    case Publishes(tenant, agent, now) => Publish(s, tenant, agent, now)
    case RollsBack(tenant, agent, version, now) => Rollback(s, tenant, agent, version, now)
    case DeletesAgent(tenant, agent) => DeleteAgent(s, tenant, agent)
    case CreatesTool(tenant, name, mcp) => CreateTool(s, tenant, name, mcp)
    case UpdatesTool(tenant, tool, name, mcp) => UpdateTool(s, tenant, tool, name, mcp)
    case DeletesTool(tenant, tool) => DeleteTool(s, tenant, tool)
  }
}
