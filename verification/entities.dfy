/**
  The studio's entity graph: tools, agents, tasks, crews and knowledge
  sources, held in one `Store` whose collections keep the order of the
  session lists (`ss.agents`, `ss.tasks`, ...).

  Entities refer to each other by id: a task names its agent, a crew names
  its agents and tasks, an agent names its knowledge sources.  An id that
  resolves to nothing reads as "absent".  Validity is recomputed from the
  store on every call, never cached.
 */
module Entities {
  import opened Base

  /**
    A configured tool.  Its own kind-specific check of required parameters
    lives in a class that is not part of this model; `requirementsMet` is
    that check's verdict.
   */
  datatype Tool = Tool(
    id: string,
    name: string,
    toolId: string,
    parameterNames: seq<string>,
    parameters: map<string, string>,
    requirementsMet: bool)

  predicate ToolValid(t: Tool)
  {
    t.requirementsMet
  }

  datatype Agent = Agent(
    id: string,
    role: string,
    backstory: string,
    goal: string,
    temperature: real,
    allowDelegation: bool,
    verbose: bool,
    cache: bool,
    llmProviderModel: string,
    maxIter: int,
    createdAt: string,
    tools: seq<Tool>,
    knowledgeSourceIds: seq<string>)

  /**
    A task.  The two context lists keep Python's distinction between `None`
    and a (possibly empty) list, which `duplicate` and the delete cascade
    observe.
   */
  datatype Task = Task(
    id: string,
    description: string,
    expectedOutput: string,
    agentId: Option<string>,
    asyncExecution: bool,
    contextFromAsyncTaskIds: Option<seq<string>>,
    contextFromSyncTaskIds: Option<seq<string>>,
    createdAt: string)

  /** A crew, reduced to its name and the ids of its members. */
  datatype Crew = Crew(id: string, name: string, agentIds: seq<string>, taskIds: seq<string>)

  datatype KnowledgeSource = KnowledgeSource(id: string, name: string)

  datatype Store = Store(
    agents: seq<Agent>,
    tasks: seq<Task>,
    crews: seq<Crew>,
    tools: seq<Tool>,
    knowledgeSources: seq<KnowledgeSource>)

  /** What the persistence layer is asked to do, in order. */
  datatype StoreEvent =
    | SavedAgent(agentId: string)
    | SavedTask(taskId: string)
    | SavedCrew(crewId: string)
    | DeletedAgent(deletedAgentId: string)
    | DeletedTask(deletedTaskId: string)

  /**
    `MyAgent.is_valid`: walks the tool list in order and answers false at
    the first invalid tool.
   */
  function AllToolsValid(tools: seq<Tool>): (r: bool)
    ensures r <==> forall i :: 0 <= i < |tools| ==> ToolValid(tools[i])
  {
    if |tools| == 0 then true
    else if !ToolValid(tools[0]) then false
    else
      var rest := AllToolsValid(tools[1..]);
      assert forall i :: 1 <= i < |tools| ==> tools[i] == tools[1..][i - 1];
      rest
  }

  predicate AgentValid(a: Agent)
  {
    AllToolsValid(a.tools)
  }

  /** Position of the first agent with this id (the first match, as the page's lookup takes it). */
  function AgentIndex(agents: seq<Agent>, id: string): (r: Option<nat>)
    ensures r.Some? ==> r.value < |agents| && agents[r.value].id == id
    ensures r.Some? ==> forall j :: 0 <= j < r.value ==> agents[j].id != id
    ensures r.None? <==> forall j :: 0 <= j < |agents| ==> agents[j].id != id
  {
    if |agents| == 0 then None
    else if agents[0].id == id then Some(0)
    else
      match AgentIndex(agents[1..], id)
      case None => None
      case Some(k) => Some(k + 1)
  }

  /** The agent a task is assigned to, if its id still resolves. */
  function TaskAgent(s: Store, t: Task): (r: Option<Agent>)
    ensures t.agentId.None? ==> r.None?
    ensures r.Some? ==> r.value in s.agents && Some(r.value.id) == t.agentId
  {
    match t.agentId
    case None => None
    case Some(aid) =>
      match AgentIndex(s.agents, aid)
      case None => None
      case Some(i) => Some(s.agents[i])
  }

  /** `MyTask.is_valid`: the task has an agent and that agent is valid. */
  function TaskValid(s: Store, t: Task): (r: bool)
    ensures r ==> t.agentId.Some?
    ensures r <==> TaskAgent(s, t).Some? && forall i :: 0 <= i < |TaskAgent(s, t).value.tools| ==> ToolValid(TaskAgent(s, t).value.tools[i])
  {
    match TaskAgent(s, t)
    case None => false
    case Some(a) => AgentValid(a)
  }
}
