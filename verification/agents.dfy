/**
  `MyAgent`: construction defaults, the build precondition, LLM-selection
  repair, dependency analysis, the confirmed-delete cascade, duplication,
  tool labels and the knowledge-source filter of the edit form.
 */
module Agents {
  import opened Base
  import opened Strings
  import opened Seqs
  import opened Entities
  import opened Llms

  /** Stored when no LLM is available. */
  const NoLlmSentinel := "none:none"

  const DefaultRole := "Senior Researcher"
  const DefaultBackstory := "Driven by curiosity, you're at the forefront of innovation, eager to explore and share knowledge that could change the world."
  const DefaultGoal := "Uncover groundbreaking technologies in AI"
  const DefaultTemperature: real := 0.1
  const DefaultMaxIter := 25

  /**
    The constructor's arguments after Python's signature defaults:
    `allow_delegation` and `verbose` default to `False`, every other
    argument to `None`.
   */
  datatype AgentArgs = AgentArgs(
    id: Option<string>,
    role: Option<string>,
    backstory: Option<string>,
    goal: Option<string>,
    temperature: Option<real>,
    allowDelegation: Option<bool>,
    verbose: Option<bool>,
    cache: Option<bool>,
    llmProviderModel: Option<string>,
    maxIter: Option<int>,
    createdAt: Option<string>,
    tools: Option<seq<Tool>>,
    knowledgeSourceIds: Option<seq<string>>)

  /** The constructor's arguments when none is given. */
  const NoArgs := AgentArgs(None, None, None, None, None, Some(false), Some(false), None, None, None, None, None, None)

  /**
    `MyAgent.__init__`.  `freshId` stands for `rnd_id()`, `now` for the
    current timestamp and `available` for `llm_providers_and_models()`.
   */
  function NewAgent(args: AgentArgs, freshId: string, now: string, available: seq<string>): (a: Agent)
    ensures a.id == OrString(args.id, "A_" + freshId)
    ensures args.id.None? ==> StartsWith(a.id, "A_")
    ensures a.role != "" && a.backstory != "" && a.goal != ""
    ensures a.role == OrString(args.role, DefaultRole) && a.backstory == OrString(args.backstory, DefaultBackstory)
    ensures a.goal == OrString(args.goal, DefaultGoal) && a.createdAt == OrString(args.createdAt, now)
    ensures a.temperature != 0.0 && a.maxIter != 0
    ensures args.temperature.Some? && args.temperature.value != 0.0 ==> a.temperature == args.temperature.value
    ensures args.temperature.None? || args.temperature == Some(0.0) ==> a.temperature == DefaultTemperature
    ensures args.maxIter.Some? && args.maxIter.value != 0 ==> a.maxIter == args.maxIter.value
    ensures args.maxIter.None? || args.maxIter == Some(0) ==> a.maxIter == DefaultMaxIter
    ensures args.llmProviderModel.Some? ==> a.llmProviderModel == args.llmProviderModel.value
    ensures args.llmProviderModel.None? ==>
      (if |available| > 0 then a.llmProviderModel == available[0] else a.llmProviderModel == NoLlmSentinel)
    ensures a.allowDelegation == (args.allowDelegation == Some(true))
    ensures a.verbose == (args.verbose != Some(false))
    ensures a.cache == (args.cache != Some(false))
    ensures a.tools == args.tools.GetOr([]) && a.knowledgeSourceIds == args.knowledgeSourceIds.GetOr([])
  {
    Agent(
      OrString(args.id, "A_" + freshId),
      OrString(args.role, DefaultRole),
      OrString(args.backstory, DefaultBackstory),
      OrString(args.goal, DefaultGoal),
      if args.temperature.Some? && args.temperature.value != 0.0 then args.temperature.value else DefaultTemperature,
      if args.allowDelegation.Some? then args.allowDelegation.value else false,
      if args.verbose.Some? then args.verbose.value else true,
      if args.cache.Some? then args.cache.value else true,
      match args.llmProviderModel
      case Some(m) => m
      case None => if |available| > 0 then available[0] else NoLlmSentinel,
      if args.maxIter.Some? && args.maxIter.value != 0 then args.maxIter.value else DefaultMaxIter,
      OrString(args.createdAt, now),
      args.tools.GetOr([]),
      args.knowledgeSourceIds.GetOr([]))
  }

  /**
    `MyAgent()`: the defaults, including `verbose` off (the signature's
    `False` wins over the `None` branch) and cache on.
   */
  lemma DefaultAgent(freshId: string, now: string, available: seq<string>)
    ensures var a := NewAgent(NoArgs, freshId, now, available);
      && a.id == "A_" + freshId && a.role == DefaultRole && a.backstory == DefaultBackstory
      && a.goal == DefaultGoal && a.temperature == DefaultTemperature && a.maxIter == DefaultMaxIter
      && !a.allowDelegation && !a.verbose && a.cache && a.createdAt == now
      && a.tools == [] && a.knowledgeSourceIds == []
  {
  }

  /** An agent built without tools is valid, whatever its LLM selection. */
  lemma NoToolsAgentValid(args: AgentArgs, freshId: string, now: string, available: seq<string>)
    requires args.tools.None? || args.tools == Some([])
    ensures AgentValid(NewAgent(args, freshId, now, available))
  {
  }

  /** The default selection is always one `validate_llm_provider_model` accepts as is. */
  lemma DefaultSelectionIsValidated(args: AgentArgs, freshId: string, now: string, available: seq<string>)
    requires args.llmProviderModel.None?
    ensures var a := NewAgent(args, freshId, now, available);
      ValidateLlm(a, available) == a
  {
  }

  /**
    `validate_llm_provider_model`: keep an available selection, otherwise
    take the first available one, or the sentinel when none is available.
   */
  function ValidateLlm(a: Agent, available: seq<string>): (r: Agent)
    ensures |available| > 0 ==> r.llmProviderModel in available
    ensures |available| == 0 ==> r.llmProviderModel == NoLlmSentinel
    ensures a.llmProviderModel in available ==> r == a
    ensures r == a.(llmProviderModel := r.llmProviderModel)
  {
    if |available| > 0 then
      if a.llmProviderModel in available then a else a.(llmProviderModel := available[0])
    else a.(llmProviderModel := NoLlmSentinel)
  }

  lemma ValidateLlmIdempotent(a: Agent, available: seq<string>)
    ensures ValidateLlm(ValidateLlm(a, available), available) == ValidateLlm(a, available)
  {
  }

  /** What the external runtime is given for an agent; tools and knowledge sources by id. */
  datatype AgentHandle = AgentHandle(
    role: string,
    backstory: string,
    goal: string,
    allowDelegation: bool,
    verbose: bool,
    maxIter: int,
    cache: bool,
    toolIds: seq<string>,
    llm: LlmHandle,
    knowledgeSourceIds: Option<seq<string>>)

  datatype BuildError = NoLlmConfigured | LlmFailed(cause: LlmError)

  datatype AgentBuild = AgentBuild(result: Result<AgentHandle, BuildError>, after: EnvState)

  function ToolId(t: Tool): string { t.id }
  function SourceId(k: KnowledgeSource): string { k.id }

  /** The ids of the tools handed to the runtime agent, in order. */
  function ToolIds(tools: seq<Tool>): seq<string>
  {
    Map(tools, ToolId)
  }

  /** The ids of the session's knowledge sources: what a knowledge-source id is checked against. */
  function SourceIds(sources: seq<KnowledgeSource>): seq<string>
  {
    Map(sources, SourceId)
  }

  /**
    `get_crewai_agent`.  An empty or sentinel selection fails before any
    LLM is built; otherwise the LLM is built (which may switch the
    environment), and the agent's knowledge-source ids that still resolve
    are attached, or nothing when none does.
   */
  function BuildAgent(a: Agent, s: Store, st: EnvState, cfg: Config): (r: AgentBuild)
    ensures a.llmProviderModel == "" || a.llmProviderModel == NoLlmSentinel ==>
      r == AgentBuild(Failure(NoLlmConfigured), st)
    ensures a.llmProviderModel != "" && a.llmProviderModel != NoLlmSentinel ==>
      var llm := CreateLlm(a.llmProviderModel, st, cfg);
      && r.after == llm.after
      && (r.result.Success? <==> llm.result.Success?)
      && (r.result.Failure? ==> r.result.error == LlmFailed(llm.result.error))
    ensures r.result.Success? ==>
      var h := r.result.value;
      && h.role == a.role && h.goal == a.goal && h.backstory == a.backstory
      && h.toolIds == ToolIds(a.tools)
      && (h.knowledgeSourceIds.Some? <==> exists i :: 0 <= i < |a.knowledgeSourceIds| && a.knowledgeSourceIds[i] in SourceIds(s.knowledgeSources))
      && (h.knowledgeSourceIds.Some? ==> IsSubsequence(h.knowledgeSourceIds.value, a.knowledgeSourceIds))
      && (h.knowledgeSourceIds.Some? ==>
            forall y :: multiset(h.knowledgeSourceIds.value)[y] ==
              if y in SourceIds(s.knowledgeSources) then multiset(a.knowledgeSourceIds)[y] else 0)
    ensures r.result.Success? ==>
      var h := r.result.value;
      && h.allowDelegation == a.allowDelegation && h.verbose == a.verbose
      && h.maxIter == a.maxIter && h.cache == a.cache
      && CreateLlm(a.llmProviderModel, st, cfg).result == Success(h.llm)
  {
    if a.llmProviderModel == "" || a.llmProviderModel == NoLlmSentinel then
      AgentBuild(Failure(NoLlmConfigured), st)
    else
      var llm := CreateLlm(a.llmProviderModel, st, cfg);
      match llm.result
      case Failure(e) => AgentBuild(Failure(LlmFailed(e)), llm.after)
      case Success(handle) =>
        var known := KeepKnown(a.knowledgeSourceIds, SourceIds(s.knowledgeSources));
        KeepKnownOrdered(a.knowledgeSourceIds, SourceIds(s.knowledgeSources));
        assert |known| > 0 ==> known[0] in multiset(known);
        var h := AgentHandle(a.role, a.backstory, a.goal, a.allowDelegation, a.verbose, a.maxIter, a.cache,
                             ToolIds(a.tools), handle, if |known| > 0 then Some(known) else None);
        AgentBuild(Success(h), llm.after)
  }

  /** Names of the crews whose agent list holds `id`, in crew order. */
  function CrewsWithAgent(crews: seq<Crew>, id: string): (r: seq<string>)
    ensures |r| > 0 <==> exists i :: 0 <= i < |crews| && id in crews[i].agentIds
    ensures |r| <= |crews|
  {
    if |crews| == 0 then []
    else
      var rest := CrewsWithAgent(crews[1..], id);
      assert forall i :: 1 <= i < |crews| ==> crews[i] == crews[1..][i - 1];
      if id in crews[0].agentIds then [crews[0].name] + rest else rest
  }

  /** The crew names are exactly those of the crews listing `id`, in crew order. */
  lemma {:induction false} CrewsWithAgentInOrder(crews: seq<Crew>, id: string)
    ensures CrewsWithAgent(crews, id) == Map(Filter(crews, ListsAgent(id)), CrewName)
    decreases |crews|
  {
    if |crews| > 0 {
      CrewsWithAgentInOrder(crews[1..], id);
      var rest := Filter(crews[1..], ListsAgent(id));
      if id in crews[0].agentIds {
        assert Filter(crews, ListsAgent(id)) == [crews[0]] + rest;
        assert CrewsWithAgent(crews, id) == [crews[0].name] + CrewsWithAgent(crews[1..], id);
        MapCons(crews[0], rest, CrewName);
      } else {
        assert Filter(crews, ListsAgent(id)) == rest;
      }
    }
  }

  /** The tasks assigned to `id`, each as the first 40 characters of its description. */
  function TasksOfAgent(tasks: seq<Task>, id: string): (r: seq<string>)
    ensures |r| > 0 <==> exists i :: 0 <= i < |tasks| && tasks[i].agentId == Some(id)
    ensures |r| <= |tasks|
  {
    if |tasks| == 0 then []
    else
      var rest := TasksOfAgent(tasks[1..], id);
      assert forall i :: 1 <= i < |tasks| ==> tasks[i] == tasks[1..][i - 1];
      if tasks[0].agentId == Some(id) then [Take(tasks[0].description, 40)] + rest else rest
  }

  /** The listed tasks are exactly those assigned to `id`, in task order, each as its excerpt. */
  lemma {:induction false} TasksOfAgentInOrder(tasks: seq<Task>, id: string)
    ensures TasksOfAgent(tasks, id) == Map(Filter(tasks, AssignedTo(id)), Excerpt)
    decreases |tasks|
  {
    if |tasks| > 0 {
      TasksOfAgentInOrder(tasks[1..], id);
      var rest := Filter(tasks[1..], AssignedTo(id));
      if tasks[0].agentId == Some(id) {
        assert Filter(tasks, AssignedTo(id)) == [tasks[0]] + rest;
        assert TasksOfAgent(tasks, id) == [Excerpt(tasks[0])] + TasksOfAgent(tasks[1..], id);
        MapCons(tasks[0], rest, Excerpt);
      } else {
        assert Filter(tasks, AssignedTo(id)) == rest;
      }
    }
  }

  /** A crew as the dependency message names it. */
  function CrewName(c: Crew): string
  {
    c.name
  }

  /** A task as the dependency analysis lists it: the first 40 characters of its description. */
  function Excerpt(t: Task): string
  {
    Take(t.description, 40)
  }

  /** Whether a task is assigned to agent `id`. */
  function AssignedTo(id: string): Task -> bool
  {
    (t: Task) => t.agentId == Some(id)
  }

  /** Something in the store still refers to agent `id`. */
  predicate AgentReferenced(s: Store, id: string)
  {
    || (exists i :: 0 <= i < |s.crews| && id in s.crews[i].agentIds)
    || (exists i :: 0 <= i < |s.tasks| && s.tasks[i].agentId == Some(id))
  }

  /**
    `analyze_dependencies`: at most one crew message, naming the crews, then
    at most one task message, counting the tasks.
   */
  function AgentDependencies(s: Store, id: string): (r: seq<string>)
    ensures |r| <= 2
    ensures (exists i :: 0 <= i < |s.crews| && id in s.crews[i].agentIds) <==>
      |r| > 0 && StartsWith(r[0], "Used in crews: ")
    ensures (exists i :: 0 <= i < |s.tasks| && s.tasks[i].agentId == Some(id)) <==>
      |r| > 0 && StartsWith(r[|r| - 1], "Assigned to ")
    ensures |r| == 0 <==> !AgentReferenced(s, id)
  {
    var crews := CrewsWithAgent(s.crews, id);
    var tasks := TasksOfAgent(s.tasks, id);
    var crewPart := if |crews| > 0 then ["Used in crews: " + Join(crews, ", ")] else [];
    var taskPart := if |tasks| > 0 then ["Assigned to " + NatToString(|tasks|) + " task(s)"] else [];
    var r := crewPart + taskPart;
    assert |crews| > 0 ==> r[0] == crewPart[0] && StartsWith(r[0], "Used in crews: ");
    assert |tasks| > 0 ==> r[|r| - 1] == taskPart[0] && StartsWith(r[|r| - 1], "Assigned to ");
    assert |crews| > 0 && |tasks| == 0 ==> !StartsWith(r[|r| - 1], "Assigned to ") by {
      if |crews| > 0 && |tasks| == 0 {
        assert r[|r| - 1][..12] != "Assigned to " by { assert r[|r| - 1][0] == 'U'; }
      }
    }
    assert |tasks| > 0 && |crews| == 0 ==> !StartsWith(r[0], "Used in crews: ") by {
      if |tasks| > 0 && |crews| == 0 {
        assert r[0][..15] != "Used in crews: " by { assert r[0][0] == 'A'; }
      }
    }
    r
  }

  /** Drop `id` from every crew's agent list. */
  function StripAgentFromCrews(crews: seq<Crew>, id: string): (r: seq<Crew>)
    ensures |r| == |crews|
    ensures forall i :: 0 <= i < |crews| ==> id !in r[i].agentIds
    ensures forall i :: 0 <= i < |crews| ==>
      r[i] == crews[i].(agentIds := RemoveAll(crews[i].agentIds, id))
    ensures forall i :: 0 <= i < |crews| && id !in crews[i].agentIds ==> r[i] == crews[i]
  {
    if |crews| == 0 then []
    else
      var rest := StripAgentFromCrews(crews[1..], id);
      var c := crews[0];
      assert forall i :: 1 <= i < |crews| ==> crews[i] == crews[1..][i - 1];
      [c.(agentIds := RemoveAll(c.agentIds, id))] + rest
  }

  /** The crew saves of the delete: one per crew that listed `id`, in list order. */
  function CrewSaves(crews: seq<Crew>, id: string): (r: seq<StoreEvent>)
    ensures forall e :: e in r <==> CrewSaveFor(crews, id, e)
    ensures (forall i :: 0 <= i < |crews| ==> id !in crews[i].agentIds) ==> r == []
  {
    if |crews| == 0 then []
    else
      var saves := CrewSaves(crews[1..], id);
      assert forall i :: 1 <= i < |crews| ==> crews[i] == crews[1..][i - 1];
      if id in crews[0].agentIds then [SavedCrew(crews[0].id)] + saves else saves
  }
  /** `e` is the save of crew `c`. */
  predicate SavesCrew(c: Crew, e: StoreEvent)
  {
    e == SavedCrew(c.id)
  }

  /** Whether a crew lists agent `id`. */
  function ListsAgent(id: string): Crew -> bool
  {
    (c: Crew) => id in c.agentIds
  }

  /** The crew saves follow the crews that list `id`, one each, in list order. */
  lemma {:induction false} CrewSavesInOrder(crews: seq<Crew>, id: string)
    ensures var listing := Filter(crews, ListsAgent(id));
      && |CrewSaves(crews, id)| == |listing|
      && forall k :: 0 <= k < |listing| ==> CrewSaves(crews, id)[k] == SavedCrew(listing[k].id)
    decreases |crews|
  {
    if |crews| > 0 {
      CrewSavesInOrder(crews[1..], id);
      var rest := Filter(crews[1..], ListsAgent(id));
      var saves := CrewSaves(crews[1..], id);
      if id in crews[0].agentIds {
        assert Filter(crews, ListsAgent(id)) == [crews[0]] + rest;
        assert CrewSaves(crews, id) == [SavedCrew(crews[0].id)] + saves;
        PairedCons(crews[0], rest, SavedCrew(crews[0].id), saves, SavesCrew);
      } else {
        assert Filter(crews, ListsAgent(id)) == rest;
        assert CrewSaves(crews, id) == saves;
      }
    }
  }

  /** Unassign `id` from every task. */
  function UnassignAgent(tasks: seq<Task>, id: string): (r: seq<Task>)
    ensures |r| == |tasks|
    ensures forall i :: 0 <= i < |tasks| ==> r[i].agentId != Some(id)
    ensures forall i :: 0 <= i < |tasks| ==>
      r[i] == if tasks[i].agentId == Some(id) then tasks[i].(agentId := None) else tasks[i]
  {
    if |tasks| == 0 then []
    else
      var rest := UnassignAgent(tasks[1..], id);
      var t := tasks[0];
      var head := if t.agentId == Some(id) then t.(agentId := None) else t;
      var r := [head] + rest;
      assert forall i :: 1 <= i < |tasks| ==> tasks[i] == tasks[1..][i - 1] && r[i] == rest[i - 1];
      r
  }

  /** The task saves of the delete: one per task assigned to `id`, in list order. */
  function TaskSaves(tasks: seq<Task>, id: string): (r: seq<StoreEvent>)
    ensures forall e :: e in r <==> TaskSaveFor(tasks, id, e)
    ensures (forall i :: 0 <= i < |tasks| ==> tasks[i].agentId != Some(id)) ==> r == []
  {
    if |tasks| == 0 then []
    else
      var saves := TaskSaves(tasks[1..], id);
      assert forall i :: 1 <= i < |tasks| ==> tasks[i] == tasks[1..][i - 1];
      if tasks[0].agentId == Some(id) then [SavedTask(tasks[0].id)] + saves else saves
  }

  /** The save of one task. */
  function TaskSave(t: Task): StoreEvent
  {
    SavedTask(t.id)
  }

  /** The task saves are one per task assigned to `id`, in list order. */
  lemma {:induction false} TaskSavesInOrder(tasks: seq<Task>, id: string)
    ensures TaskSaves(tasks, id) == Map(Filter(tasks, AssignedTo(id)), TaskSave)
    decreases |tasks|
  {
    if |tasks| > 0 {
      TaskSavesInOrder(tasks[1..], id);
      assert tasks == [tasks[0]] + tasks[1..];
      var rest := Filter(tasks[1..], AssignedTo(id));
      if tasks[0].agentId == Some(id) {
        assert Filter(tasks, AssignedTo(id)) == [tasks[0]] + rest;
        MapCons(tasks[0], rest, TaskSave);
      } else {
        assert Filter(tasks, AssignedTo(id)) == rest;
      }
    }
  }

  /** The agents other than `id`, in their original order. */
  function RemoveAgent(agents: seq<Agent>, id: string): (r: seq<Agent>)
    ensures forall i :: 0 <= i < |r| ==> r[i].id != id
    ensures forall a :: a in agents && a.id != id ==> a in r
    ensures forall a :: a in r ==> a in agents
    ensures forall a :: multiset(r)[a] == if a.id == id then 0 else multiset(agents)[a]
    ensures IsSubsequence(r, agents)
  {
    Filter(agents, (x: Agent) => x.id != id)
  }

  /** `e` saves a crew or task that referred to agent `id`. */
  predicate AgentCascadeSave(s: Store, id: string, e: StoreEvent)
  {
    CrewSaveFor(s.crews, id, e) || TaskSaveFor(s.tasks, id, e)
  }

  /** `e` saves a crew that listed agent `id`. */
  predicate CrewSaveFor(crews: seq<Crew>, id: string, e: StoreEvent)
  {
    exists i :: 0 <= i < |crews| && id in crews[i].agentIds && e == SavedCrew(crews[i].id)
  }

  /** `e` saves a task that was assigned to agent `id`. */
  predicate TaskSaveFor(tasks: seq<Task>, id: string, e: StoreEvent)
  {
    exists i :: 0 <= i < |tasks| && tasks[i].agentId == Some(id) && e == SavedTask(tasks[i].id)
  }

  /**
    The confirmed delete of the agent dialog: strip the agent from crews
    (saving each changed crew), unassign it from tasks (saving each
    changed task), then remove it from the agent list and the database.
   */
  function DeleteAgentConfirmed(s: Store, id: string): (s': Store)
    ensures forall i :: 0 <= i < |s'.crews| ==> id !in s'.crews[i].agentIds
    ensures forall i :: 0 <= i < |s'.tasks| ==> s'.tasks[i].agentId != Some(id)
    ensures forall i :: 0 <= i < |s'.agents| ==> s'.agents[i].id != id
    ensures |s'.crews| == |s.crews| && |s'.tasks| == |s.tasks|
    ensures forall i :: 0 <= i < |s.crews| && id !in s.crews[i].agentIds ==> s'.crews[i] == s.crews[i]
    ensures forall i :: 0 <= i < |s.tasks| && s.tasks[i].agentId != Some(id) ==> s'.tasks[i] == s.tasks[i]
    ensures forall a :: a in s.agents && a.id != id ==> a in s'.agents
    ensures forall i :: 0 <= i < |s.crews| ==> s'.crews[i] == s.crews[i].(agentIds := RemoveAll(s.crews[i].agentIds, id))
    ensures forall i :: 0 <= i < |s.tasks| ==>
      s'.tasks[i] == if s.tasks[i].agentId == Some(id) then s.tasks[i].(agentId := None) else s.tasks[i]
    ensures forall a :: multiset(s'.agents)[a] == if a.id == id then 0 else multiset(s.agents)[a]
    ensures IsSubsequence(s'.agents, s.agents)
    ensures s'.tools == s.tools && s'.knowledgeSources == s.knowledgeSources
  {
    Store(RemoveAgent(s.agents, id), UnassignAgent(s.tasks, id), StripAgentFromCrews(s.crews, id),
      s.tools, s.knowledgeSources)
  }

  /** The database writes of the confirmed delete, in order: crew saves, task saves, then the delete itself. */
  function DeleteAgentLog(s: Store, id: string): (log: seq<StoreEvent>)
    ensures |log| > 0 && log[|log| - 1] == DeletedAgent(id)
    ensures forall k :: 0 <= k < |log| - 1 ==> AgentCascadeSave(s, id, log[k])
    ensures forall i :: 0 <= i < |s.crews| && id in s.crews[i].agentIds ==> SavedCrew(s.crews[i].id) in log
    ensures forall i :: 0 <= i < |s.tasks| && s.tasks[i].agentId == Some(id) ==> SavedTask(s.tasks[i].id) in log
  {
    var crewSaves := CrewSaves(s.crews, id);
    var taskSaves := TaskSaves(s.tasks, id);
    var log := crewSaves + taskSaves + [DeletedAgent(id)];
    assert forall k :: 0 <= k < |log| - 1 ==> log[k] in crewSaves || log[k] in taskSaves by {
      forall k | 0 <= k < |log| - 1
        ensures log[k] in crewSaves || log[k] in taskSaves
      {
        if k < |crewSaves| {
          assert log[k] == crewSaves[k];
        } else {
          assert log[k] == taskSaves[k - |crewSaves|];
        }
      }
    }
    log
  }

  /** After the delete nothing refers to the agent, so a second analysis reports nothing. */
  lemma DeleteAgentLeavesNoDependencies(s: Store, id: string)
    ensures !AgentReferenced(DeleteAgentConfirmed(s, id), id)
    ensures AgentDependencies(DeleteAgentConfirmed(s, id), id) == []
  {
  }

  /** Deleting an agent nobody refers to saves nothing and only removes the agent. */
  lemma DeleteUnreferencedAgent(s: Store, id: string)
    requires !AgentReferenced(s, id)
    ensures DeleteAgentLog(s, id) == [DeletedAgent(id)]
    ensures DeleteAgentConfirmed(s, id) == s.(agents := RemoveAgent(s.agents, id))
  {
    assert StripAgentFromCrews(s.crews, id) == s.crews;
    assert UnassignAgent(s.tasks, id) == s.tasks;
  }

  /**
    `duplicate`: a new agent through the constructor, with the role marked
    as a copy and the other settings passed on; it is appended and saved.
   */
  function DuplicateAgent(s: Store, a: Agent, freshId: string, now: string, available: seq<string>): (r: (Store, Agent, seq<StoreEvent>))
    ensures var copy := r.1;
      && copy.id == "A_" + freshId
      && copy.role == a.role + " (Copy)"
      && copy.createdAt == now
      && copy.llmProviderModel == a.llmProviderModel
      && copy.allowDelegation == a.allowDelegation && copy.verbose == a.verbose && copy.cache == a.cache
      && copy.tools == a.tools && copy.knowledgeSourceIds == a.knowledgeSourceIds
    ensures var copy := r.1;
      && copy.backstory == OrString(Some(a.backstory), DefaultBackstory)
      && copy.goal == OrString(Some(a.goal), DefaultGoal)
      && copy.temperature == (if a.temperature != 0.0 then a.temperature else DefaultTemperature)
      && copy.maxIter == (if a.maxIter != 0 then a.maxIter else DefaultMaxIter)
    ensures r.0 == s.(agents := s.agents + [r.1])
    ensures r.2 == [SavedAgent(r.1.id)]
  {
    var args := AgentArgs(None, Some(a.role + " (Copy)"), Some(a.backstory), Some(a.goal), Some(a.temperature),
                          Some(a.allowDelegation), Some(a.verbose), Some(a.cache), Some(a.llmProviderModel),
                          Some(a.maxIter), None, Some(a.tools), Some(a.knowledgeSourceIds));
    var copy := NewAgent(args, freshId, now, available);
    (s.(agents := s.agents + [copy]), copy, [SavedAgent(copy.id)])
  }

  /**
    An agent whose text fields are non-empty and whose numbers are
    non-zero (every agent the constructor produces) is copied field for
    field, except for the id, the role and the creation time.
   */
  lemma DuplicateCopiesNormalisedAgent(s: Store, a: Agent, freshId: string, now: string, available: seq<string>)
    requires a.backstory != "" && a.goal != "" && a.temperature != 0.0 && a.maxIter != 0
    ensures var copy := DuplicateAgent(s, a, freshId, now, available).1;
      copy == a.(id := "A_" + freshId, role := a.role + " (Copy)", createdAt := now)
  {
  }

  /** Every constructed agent meets the precondition of `DuplicateCopiesNormalisedAgent`. */
  lemma ConstructedAgentsAreNormalised(args: AgentArgs, freshId: string, now: string, available: seq<string>)
    ensures var a := NewAgent(args, freshId, now, available);
      a.backstory != "" && a.goal != "" && a.temperature != 0.0 && a.maxIter != 0
  {
  }

  /** The first parameter's value, when the tool has a first parameter with a non-empty name and value. */
  function FirstParameterValue(t: Tool): (r: Option<string>)
    ensures r.Some? ==> (|t.parameterNames| > 0 && t.parameterNames[0] in t.parameters &&
                         r.value == t.parameters[t.parameterNames[0]] && r.value != "")
    ensures r.None? ==> (|t.parameterNames| == 0 || t.parameterNames[0] == "" ||
                         t.parameterNames[0] !in t.parameters || t.parameters[t.parameterNames[0]] == "")
  {
    if |t.parameterNames| == 0 || t.parameterNames[0] == "" then None
    else if t.parameterNames[0] in t.parameters && t.parameters[t.parameterNames[0]] != "" then
      Some(t.parameters[t.parameterNames[0]])
    else None
  }

  /** A tool's display name: its name, then in parentheses its first parameter's value, or its id when that value is missing or empty. */
  function ToolDisplayName(t: Tool): (r: string)
    ensures StartsWith(r, t.name + " (") && r[|r| - 1] == ')'
    ensures r[|t.name| + 2..|r| - 1] == FirstParameterValue(t).GetOr(t.toolId)
  {
    var inner := FirstParameterValue(t).GetOr(t.toolId);
    var r := t.name + " (" + inner + ")";
    assert r[..|t.name + " ("|] == t.name + " (";
    assert r[|t.name| + 2..|r| - 1] == inner;
    r
  }

  /** Tools with the same name and different labels get different display names. */
  lemma ToolDisplayNameInjective(t: Tool, u: Tool)
    requires t.name == u.name
    requires FirstParameterValue(t).GetOr(t.toolId) != FirstParameterValue(u).GetOr(u.toolId)
    ensures ToolDisplayName(t) != ToolDisplayName(u)
  {
  }

  /**
    The knowledge-source filter of the edit form: when the session has
    knowledge sources, ids that no longer resolve are dropped (order kept),
    and the agent is saved only if something was dropped.
   */
  function FilterKnowledge(a: Agent, sources: seq<KnowledgeSource>): (r: (Agent, bool))
    ensures r.0 == a.(knowledgeSourceIds := r.0.knowledgeSourceIds)
    ensures |sources| == 0 ==> r == (a, false)
    ensures |sources| > 0 ==> forall i :: 0 <= i < |r.0.knowledgeSourceIds| ==> r.0.knowledgeSourceIds[i] in SourceIds(sources)
    ensures r.1 <==> |sources| > 0 && exists i :: 0 <= i < |a.knowledgeSourceIds| && a.knowledgeSourceIds[i] !in SourceIds(sources)
    ensures !r.1 ==> r.0 == a
    ensures IsSubsequence(r.0.knowledgeSourceIds, a.knowledgeSourceIds)
    ensures |sources| > 0 ==>
      forall y :: multiset(r.0.knowledgeSourceIds)[y] ==
        if y in SourceIds(sources) then multiset(a.knowledgeSourceIds)[y] else 0
  {
    SubsequenceRefl(a.knowledgeSourceIds);
    if |sources| == 0 then (a, false)
    else
      var options := SourceIds(sources);
      var valid := KeepKnown(a.knowledgeSourceIds, options);
      KeepKnownOrdered(a.knowledgeSourceIds, options);
      KeepKnownLength(a.knowledgeSourceIds, options);
      if |valid| != |a.knowledgeSourceIds| then (a.(knowledgeSourceIds := valid), true)
      else
        KeepKnownAllKnown(a.knowledgeSourceIds, options);
        (a, false)
  }

  /** A second filter against the same sources changes nothing and saves nothing. */
  lemma FilterKnowledgeIdempotent(a: Agent, sources: seq<KnowledgeSource>)
    ensures var once := FilterKnowledge(a, sources).0;
      FilterKnowledge(once, sources) == (once, false)
  {
  }
}
