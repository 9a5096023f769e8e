/**
  `MyTask`: construction defaults (including the precedence quirk of the
  agent default), context assembly for the runtime, dependency analysis,
  the confirmed-delete cascade and duplication.
 */
module Tasks {
  import opened Base
  import opened Strings
  import opened Seqs
  import opened Entities
  import opened Llms
  import opened Agents

  const DefaultDescription := "Identify the next big trend in AI. Focus on identifying pros and cons and the overall narrative."
  const DefaultExpectedOutput := "A comprehensive 3 paragraphs long report on the latest AI trends."

  /** The constructor's arguments; every one defaults to `None`. */
  datatype TaskArgs = TaskArgs(
    id: Option<string>,
    description: Option<string>,
    expectedOutput: Option<string>,
    agentId: Option<string>,
    asyncExecution: Option<bool>,
    createdAt: Option<string>,
    contextFromAsyncTaskIds: Option<seq<string>>,
    contextFromSyncTaskIds: Option<seq<string>>)

  /** Python's `ids or None`: an empty list becomes `None`. */
  function NonEmptyOrNone(ids: Option<seq<string>>): (r: Option<seq<string>>)
    ensures r.Some? <==> ids.Some? && |ids.value| > 0
    ensures r.Some? ==> r == ids
  {
    if ids.Some? && |ids.value| > 0 then ids else None
  }

  /**
    `MyTask.__init__`.  The agent is chosen only when the session has
    agents at all (the given one, else the first), so with no agents in the
    session the task gets no agent even when one is passed.
   */
  function NewTask(args: TaskArgs, freshId: string, now: string, agents: seq<Agent>): (t: Task)
    ensures t.id == OrString(args.id, "T_" + freshId)
    ensures args.id.None? ==> StartsWith(t.id, "T_")
    ensures t.description != "" && t.expectedOutput != ""
    ensures t.description == OrString(args.description, DefaultDescription)
    ensures t.expectedOutput == OrString(args.expectedOutput, DefaultExpectedOutput)
    ensures t.createdAt == OrString(args.createdAt, now)
    ensures |agents| == 0 ==> t.agentId.None?
    ensures |agents| > 0 ==> t.agentId == Some(args.agentId.GetOr(agents[0].id))
    ensures t.asyncExecution <==> args.asyncExecution == Some(true)
    ensures t.contextFromAsyncTaskIds.Some? ==> |t.contextFromAsyncTaskIds.value| > 0
    ensures t.contextFromSyncTaskIds.Some? ==> |t.contextFromSyncTaskIds.value| > 0
    ensures t.contextFromAsyncTaskIds == NonEmptyOrNone(args.contextFromAsyncTaskIds)
    ensures t.contextFromSyncTaskIds == NonEmptyOrNone(args.contextFromSyncTaskIds)
  {
    Task(
      OrString(args.id, "T_" + freshId),
      OrString(args.description, DefaultDescription),
      OrString(args.expectedOutput, DefaultExpectedOutput),
      if |agents| > 0 then Some(args.agentId.GetOr(agents[0].id)) else None,
      args.asyncExecution == Some(true),
      NonEmptyOrNone(args.contextFromAsyncTaskIds),
      NonEmptyOrNone(args.contextFromSyncTaskIds),
      OrString(args.createdAt, now))
  }

  /** The precedence quirk: an explicit agent is dropped when the session has no agents. */
  lemma ExplicitAgentDroppedWithoutAgents(args: TaskArgs, freshId: string, now: string)
    requires args.agentId.Some?
    ensures NewTask(args, freshId, now, []).agentId.None?
  {
  }

  /** With agents present, a task built without an agent is valid exactly when the first agent is. */
  lemma DefaultAgentDecidesValidity(args: TaskArgs, freshId: string, now: string, s: Store)
    requires args.agentId.None? && |s.agents| > 0
    ensures TaskValid(s, NewTask(args, freshId, now, s.agents)) <==> AgentValid(s.agents[AgentIndex(s.agents, s.agents[0].id).value])
  {
  }

  /**
    The context of `get_crewai_task`: the async handles, then the sync
    handles, each only when non-empty; no context at all when both are
    empty.
   */
  function AssembleContext(asyncCtx: Option<seq<string>>, syncCtx: Option<seq<string>>): (r: Option<seq<string>>)
    ensures r.None? <==> asyncCtx.GetOr([]) == [] && syncCtx.GetOr([]) == []
    ensures r.Some? ==> |r.value| > 0 && r.value == asyncCtx.GetOr([]) + syncCtx.GetOr([])
    ensures r.Some? ==> r.value[..|asyncCtx.GetOr([])|] == asyncCtx.GetOr([])
  {
    var context := asyncCtx.GetOr([]) + syncCtx.GetOr([]);
    if |context| > 0 then Some(context) else None
  }

  /** What the runtime is given for a task; context as the handles of earlier tasks. */
  datatype TaskHandle = TaskHandle(
    description: string,
    expectedOutput: string,
    asyncExecution: bool,
    agent: AgentHandle,
    context: Option<seq<string>>)

  datatype TaskBuildError = NoAgent | AgentFailed(cause: BuildError)

  datatype TaskBuild = TaskBuild(result: Result<TaskHandle, TaskBuildError>, after: EnvState)

  /**
    `get_crewai_task`: needs the task's agent (a missing agent raises before
    anything else happens) and builds it; the context is attached only
    when non-empty.
   */
  function BuildTask(t: Task, s: Store, asyncCtx: Option<seq<string>>, syncCtx: Option<seq<string>>,
                     st: EnvState, cfg: Config): (r: TaskBuild)
    ensures TaskAgent(s, t).None? ==> r == TaskBuild(Failure(NoAgent), st)
    ensures TaskAgent(s, t).Some? ==>
      var b := BuildAgent(TaskAgent(s, t).value, s, st, cfg);
      && r.after == b.after
      && (r.result.Success? <==> b.result.Success?)
      && (r.result.Failure? ==> r.result.error == AgentFailed(b.result.error))
    ensures r.result.Success? ==>
      && r.result.value.context == AssembleContext(asyncCtx, syncCtx)
      && r.result.value.description == t.description
      && r.result.value.expectedOutput == t.expectedOutput
      && r.result.value.asyncExecution == t.asyncExecution
      && r.result.value.agent == BuildAgent(TaskAgent(s, t).value, s, st, cfg).result.value
  {
    match TaskAgent(s, t)
    case None => TaskBuild(Failure(NoAgent), st)
    case Some(a) =>
      var b := BuildAgent(a, s, st, cfg);
      match b.result
      case Failure(e) => TaskBuild(Failure(AgentFailed(e)), b.after)
      case Success(h) =>
        TaskBuild(Success(TaskHandle(t.description, t.expectedOutput, t.asyncExecution, h,
                                     AssembleContext(asyncCtx, syncCtx))), b.after)
  }

  /** Task `u` lists `id` in one of its context lists (`id in (ids or [])`). */
  predicate MentionsContext(u: Task, id: string)
  {
    id in u.contextFromAsyncTaskIds.GetOr([]) || id in u.contextFromSyncTaskIds.GetOr([])
  }

  /** Names of the crews whose task list holds `id`. */
  function CrewsWithTask(crews: seq<Crew>, id: string): (r: seq<string>)
    ensures |r| > 0 <==> exists i :: 0 <= i < |crews| && id in crews[i].taskIds
    ensures |r| <= |crews|
  {
    if |crews| == 0 then []
    else
      var rest := CrewsWithTask(crews[1..], id);
      assert forall i :: 1 <= i < |crews| ==> crews[i] == crews[1..][i - 1];
      if id in crews[0].taskIds then [crews[0].name] + rest else rest
  }

  /** The crew names are exactly those of the crews listing task `id`, in crew order. */
  lemma {:induction false} CrewsWithTaskInOrder(crews: seq<Crew>, id: string)
    ensures CrewsWithTask(crews, id) == Map(Filter(crews, ListsTask(id)), CrewName)
    decreases |crews|
  {
    if |crews| > 0 {
      CrewsWithTaskInOrder(crews[1..], id);
      var rest := Filter(crews[1..], ListsTask(id));
      if id in crews[0].taskIds {
        assert Filter(crews, ListsTask(id)) == [crews[0]] + rest;
        assert CrewsWithTask(crews, id) == [crews[0].name] + CrewsWithTask(crews[1..], id);
        MapCons(crews[0], rest, CrewName);
      } else {
        assert Filter(crews, ListsTask(id)) == rest;
      }
    }
  }

  /** Whether task `u` is another task that uses task `id` as context. */
  function UsesAsContext(id: string): Task -> bool
  {
    (u: Task) => u.id != id && MentionsContext(u, id)
  }

  /** Other tasks (a task never counts itself) that use `id` as context, by description prefix. */
  function ContextUsers(tasks: seq<Task>, id: string): (r: seq<string>)
    ensures |r| > 0 <==> exists i :: 0 <= i < |tasks| && tasks[i].id != id && MentionsContext(tasks[i], id)
    ensures |r| <= |tasks|
  {
    if |tasks| == 0 then []
    else
      var rest := ContextUsers(tasks[1..], id);
      assert forall i :: 1 <= i < |tasks| ==> tasks[i] == tasks[1..][i - 1];
      if tasks[0].id != id && MentionsContext(tasks[0], id) then [Take(tasks[0].description, 40)] + rest else rest
  }

  /** The listed tasks are exactly the other tasks using `id` as context, in task order, as excerpts. */
  lemma {:induction false} ContextUsersInOrder(tasks: seq<Task>, id: string)
    ensures ContextUsers(tasks, id) == Map(Filter(tasks, UsesAsContext(id)), Excerpt)
    decreases |tasks|
  {
    if |tasks| > 0 {
      ContextUsersInOrder(tasks[1..], id);
      var rest := Filter(tasks[1..], UsesAsContext(id));
      if UsesAsContext(id)(tasks[0]) {
        assert Filter(tasks, UsesAsContext(id)) == [tasks[0]] + rest;
        assert ContextUsers(tasks, id) == [Excerpt(tasks[0])] + ContextUsers(tasks[1..], id);
        MapCons(tasks[0], rest, Excerpt);
      } else {
        assert Filter(tasks, UsesAsContext(id)) == rest;
      }
    }
  }

  /** Something other than the task itself still refers to task `id`. */
  predicate TaskReferenced(s: Store, id: string)
  {
    || (exists i :: 0 <= i < |s.crews| && id in s.crews[i].taskIds)
    || (exists i :: 0 <= i < |s.tasks| && s.tasks[i].id != id && MentionsContext(s.tasks[i], id))
  }

  /** `analyze_dependencies` of a task: a crew message, then a context message. */
  function TaskDependencies(s: Store, id: string): (r: seq<string>)
    ensures |r| <= 2
    ensures (exists i :: 0 <= i < |s.crews| && id in s.crews[i].taskIds) <==>
      |r| > 0 && StartsWith(r[0], "Used in crews: ")
    ensures (exists i :: 0 <= i < |s.tasks| && s.tasks[i].id != id && MentionsContext(s.tasks[i], id)) <==>
      |r| > 0 && StartsWith(r[|r| - 1], "Referenced as context in ")
    ensures |r| == 0 <==> !TaskReferenced(s, id)
  {
    var crews := CrewsWithTask(s.crews, id);
    var users := ContextUsers(s.tasks, id);
    var crewPart := if |crews| > 0 then ["Used in crews: " + Join(crews, ", ")] else [];
    var userPart := if |users| > 0 then ["Referenced as context in " + NatToString(|users|) + " task(s)"] else [];
    var r := crewPart + userPart;
    assert |crews| > 0 ==> r[0] == crewPart[0] && StartsWith(r[0], "Used in crews: ");
    assert |users| > 0 ==> r[|r| - 1] == userPart[0] && StartsWith(r[|r| - 1], "Referenced as context in ");
    assert |crews| > 0 && |users| == 0 ==> !StartsWith(r[|r| - 1], "Referenced as context in ") by {
      if |crews| > 0 && |users| == 0 {
        assert r[|r| - 1][0] == 'U';
      }
    }
    assert |users| > 0 && |crews| == 0 ==> !StartsWith(r[0], "Used in crews: ") by {
      if |users| > 0 && |crews| == 0 {
        assert r[0][0] == 'R';
      }
    }
    r
  }

  /** Drop `id` from every crew's task list. */
  function StripTaskFromCrews(crews: seq<Crew>, id: string): (r: seq<Crew>)
    ensures |r| == |crews|
    ensures forall i :: 0 <= i < |crews| ==> r[i] == crews[i].(taskIds := RemoveAll(crews[i].taskIds, id))
    ensures forall i :: 0 <= i < |crews| ==> id !in r[i].taskIds
    ensures forall i :: 0 <= i < |crews| && id !in crews[i].taskIds ==> r[i] == crews[i]
  {
    if |crews| == 0 then []
    else
      var rest := StripTaskFromCrews(crews[1..], id);
      var c := crews[0];
      assert forall i :: 1 <= i < |crews| ==> crews[i] == crews[1..][i - 1];
      [c.(taskIds := RemoveAll(c.taskIds, id))] + rest
  }

  /** `e` saves a crew that listed task `id`. */
  predicate CrewSaveFor(crews: seq<Crew>, id: string, e: StoreEvent)
  {
    exists i :: 0 <= i < |crews| && id in crews[i].taskIds && e == SavedCrew(crews[i].id)
  }

  /** The crew saves of the delete: one per crew that listed `id`, in list order. */
  function CrewSaves(crews: seq<Crew>, id: string): (r: seq<StoreEvent>)
    ensures forall e :: e in r <==> CrewSaveFor(crews, id, e)
    ensures (forall i :: 0 <= i < |crews| ==> id !in crews[i].taskIds) ==> r == []
  {
    if |crews| == 0 then []
    else
      var saves := CrewSaves(crews[1..], id);
      assert forall i :: 1 <= i < |crews| ==> crews[i] == crews[1..][i - 1];
      if id in crews[0].taskIds then [SavedCrew(crews[0].id)] + saves else saves
  }
  /** Whether a crew lists task `id`. */
  function ListsTask(id: string): Crew -> bool
  {
    (c: Crew) => id in c.taskIds
  }

  /** The crew saves follow the crews that list `id`, one each, in list order. */
  lemma {:induction false} CrewSavesInOrder(crews: seq<Crew>, id: string)
    ensures var listing := Filter(crews, ListsTask(id));
      && |CrewSaves(crews, id)| == |listing|
      && forall k :: 0 <= k < |listing| ==> CrewSaves(crews, id)[k] == SavedCrew(listing[k].id)
    decreases |crews|
  {
    if |crews| > 0 {
      CrewSavesInOrder(crews[1..], id);
      var rest := Filter(crews[1..], ListsTask(id));
      var saves := CrewSaves(crews[1..], id);
      if id in crews[0].taskIds {
        assert Filter(crews, ListsTask(id)) == [crews[0]] + rest;
        assert CrewSaves(crews, id) == [SavedCrew(crews[0].id)] + saves;
        PairedCons(crews[0], rest, SavedCrew(crews[0].id), saves, SavesCrew);
      } else {
        assert Filter(crews, ListsTask(id)) == rest;
        assert CrewSaves(crews, id) == saves;
      }
    }
  }

  /** The first occurrence of `id` leaves a context list; an absent list stays absent. */
  function RemoveContext(ids: Option<seq<string>>, id: string): (r: Option<seq<string>>)
    ensures r.None? <==> ids.None?
    ensures ids.Some? ==> multiset(r.value)[id] == if id in ids.value then multiset(ids.value)[id] - 1 else 0
    ensures ids.Some? ==> forall x :: x != id ==> multiset(r.value)[x] == multiset(ids.value)[x]
    ensures ids.Some? && multiset(ids.value)[id] <= 1 ==> id !in r.value
    ensures id !in ids.GetOr([]) ==> r == ids
    ensures ids.Some? && id in ids.value ==>
      var i := FirstIndex(ids.value, id);
      r.value == ids.value[..i] + ids.value[i + 1..]
  {
    match ids
    case None => None
    case Some(l) =>
      if |l| > 0 && id in l then
        RemoveFirstOnlyWhenSingle(l, id);
        Some(RemoveFirst(l, id))
      else Some(l)
  }

  lemma RemoveFirstOnlyWhenSingle(l: seq<string>, id: string)
    ensures multiset(l)[id] <= 1 ==> id !in RemoveFirst(l, id)
  {
    if multiset(l)[id] <= 1 {
      RemoveFirstOnly(l, id);
    }
  }

  /**
    The per-task step of the task-delete cascade: the first occurrence of
    `id` leaves each context list, with one save per list that changed.
   */
  function StripTaskContext(u: Task, id: string): (r: (Task, seq<StoreEvent>))
    ensures r.0 == u.(contextFromAsyncTaskIds := RemoveContext(u.contextFromAsyncTaskIds, id),
                      contextFromSyncTaskIds := RemoveContext(u.contextFromSyncTaskIds, id))
    ensures |r.1| == (if id in u.contextFromAsyncTaskIds.GetOr([]) then 1 else 0)
                   + (if id in u.contextFromSyncTaskIds.GetOr([]) then 1 else 0)
    ensures forall e :: e in r.1 <==> MentionsContext(u, id) && e == SavedTask(u.id)
    ensures !MentionsContext(u, id) ==> r == (u, [])
  {
    var asyncSave := if id in u.contextFromAsyncTaskIds.GetOr([]) then [SavedTask(u.id)] else [];
    var syncSave := if id in u.contextFromSyncTaskIds.GetOr([]) then [SavedTask(u.id)] else [];
    var u' := u.(contextFromAsyncTaskIds := RemoveContext(u.contextFromAsyncTaskIds, id),
                 contextFromSyncTaskIds := RemoveContext(u.contextFromSyncTaskIds, id));
    (u', asyncSave + syncSave)
  }

  /** The loop over all tasks; the task being deleted itself is skipped. */
  function StripContextAll(tasks: seq<Task>, id: string): (r: seq<Task>)
    ensures |r| == |tasks|
    ensures forall i :: 0 <= i < |tasks| ==>
      r[i] == if tasks[i].id == id then tasks[i] else StripTaskContext(tasks[i], id).0
  {
    if |tasks| == 0 then []
    else
      var u := tasks[0];
      var rest := StripContextAll(tasks[1..], id);
      var r := [if u.id == id then u else StripTaskContext(u, id).0] + rest;
      assert forall i :: 1 <= i < |r| ==> r[i] == rest[i - 1] && tasks[i] == tasks[1..][i - 1];
      r
  }

  /** `e` saves another task whose context mentioned task `id`. */
  predicate ContextSaveFor(tasks: seq<Task>, id: string, e: StoreEvent)
  {
    exists i :: 0 <= i < |tasks| && tasks[i].id != id && MentionsContext(tasks[i], id) && e == SavedTask(tasks[i].id)
  }

  /** The saves the same loop issues, in task order. */
  function ContextSaves(tasks: seq<Task>, id: string): (r: seq<StoreEvent>)
    ensures forall e :: e in r <==> ContextSaveFor(tasks, id, e)
    ensures (forall i :: 0 <= i < |tasks| ==> tasks[i].id == id || !MentionsContext(tasks[i], id)) ==> r == []
  {
    if |tasks| == 0 then []
    else
      var rest := ContextSaves(tasks[1..], id);
      var u := tasks[0];
      assert forall i :: 1 <= i < |tasks| ==> tasks[i] == tasks[1..][i - 1];
      if u.id == id then rest
      else
        var own := StripTaskContext(u, id).1;
        own + rest
  }

  /** The saves the cascade issues for one task: one per context list that held `id`. */
  function ListSaves(id: string): Task -> seq<StoreEvent>
  {
    (u: Task) => StripTaskContext(u, id).1
  }

  /**
    The context saves are, in task order, the saves of each other task
    that used `id` as context, one per list that held it.
   */
  lemma {:induction false} ContextSavesInOrder(tasks: seq<Task>, id: string)
    ensures ContextSaves(tasks, id) == Flatten(Map(Filter(tasks, UsesAsContext(id)), ListSaves(id)))
    decreases |tasks|
  {
    if |tasks| > 0 {
      ContextSavesInOrder(tasks[1..], id);
      var rest := Filter(tasks[1..], UsesAsContext(id));
      if UsesAsContext(id)(tasks[0]) {
        assert Filter(tasks, UsesAsContext(id)) == [tasks[0]] + rest;
        assert ContextSaves(tasks, id) == StripTaskContext(tasks[0], id).1 + ContextSaves(tasks[1..], id);
        MapCons(tasks[0], rest, ListSaves(id));
        FlattenCons(StripTaskContext(tasks[0], id).1, Map(rest, ListSaves(id)));
      } else {
        assert Filter(tasks, UsesAsContext(id)) == rest;
        if tasks[0].id != id {
          assert StripTaskContext(tasks[0], id).1 == [];
        }
      }
    }
  }

  /** The tasks other than `id`, in their original order. */
  function RemoveTask(tasks: seq<Task>, id: string): (r: seq<Task>)
    ensures forall i :: 0 <= i < |r| ==> r[i].id != id
    ensures forall u :: u in tasks && u.id != id ==> u in r
    ensures forall u :: u in r ==> u in tasks
    ensures forall u :: multiset(r)[u] == if u.id == id then 0 else multiset(tasks)[u]
    ensures IsSubsequence(r, tasks)
  {
    Filter(tasks, (x: Task) => x.id != id)
  }

  /** Every other task survives the cascade, with its context lists stripped. */
  lemma StrippedTasksKept(tasks: seq<Task>, id: string)
    ensures forall u :: u in tasks && u.id != id ==> StripTaskContext(u, id).0 in RemoveTask(StripContextAll(tasks, id), id)
  {
    var stripped := StripContextAll(tasks, id);
    forall u | u in tasks && u.id != id
      ensures StripTaskContext(u, id).0 in RemoveTask(stripped, id)
    {
      var i :| 0 <= i < |tasks| && tasks[i] == u;
      assert stripped[i] == StripTaskContext(u, id).0;
    }
  }

  /** `u'` is some other task of `tasks` after the context step of the cascade. */
  predicate StrippedFrom(tasks: seq<Task>, id: string, u': Task)
  {
    exists u :: u in tasks && u.id != id && u' == StripTaskContext(u, id).0
  }

  /** Every task left after the cascade is another task with its context lists stripped. */
  lemma StrippedTasksFrom(tasks: seq<Task>, id: string)
    ensures forall u' :: u' in RemoveTask(StripContextAll(tasks, id), id) ==> StrippedFrom(tasks, id, u')
  {
    var stripped := StripContextAll(tasks, id);
    forall u' | u' in RemoveTask(stripped, id)
      ensures StrippedFrom(tasks, id, u')
    {
      var i :| 0 <= i < |stripped| && stripped[i] == u';
      assert tasks[i].id != id;
      assert tasks[i] in tasks;
    }
  }

  /** `e` saves a crew or another task that referred to task `id`. */
  predicate TaskCascadeSave(s: Store, id: string, e: StoreEvent)
  {
    CrewSaveFor(s.crews, id, e) || ContextSaveFor(s.tasks, id, e)
  }

  /**
    The store after the confirmed delete of the task dialog: the task is
    stripped from crews, its first occurrence leaves the other tasks'
    context lists, and then it is dropped from the task list.
   */
  function DeleteTaskConfirmed(s: Store, id: string): (s': Store)
    ensures forall i :: 0 <= i < |s'.crews| ==> id !in s'.crews[i].taskIds
    ensures forall i :: 0 <= i < |s'.tasks| ==> s'.tasks[i].id != id
    ensures |s'.crews| == |s.crews|
    ensures forall i :: 0 <= i < |s.crews| && id !in s.crews[i].taskIds ==> s'.crews[i] == s.crews[i]
    ensures forall u :: u in s.tasks && u.id != id ==> StripTaskContext(u, id).0 in s'.tasks
    ensures forall i :: 0 <= i < |s.crews| ==> s'.crews[i] == s.crews[i].(taskIds := RemoveAll(s.crews[i].taskIds, id))
    ensures var stripped := StripContextAll(s.tasks, id);
      && IsSubsequence(s'.tasks, stripped)
      && forall u :: multiset(s'.tasks)[u] == if u.id == id then 0 else multiset(stripped)[u]
    ensures s'.agents == s.agents && s'.tools == s.tools && s'.knowledgeSources == s.knowledgeSources
  {
    StrippedTasksKept(s.tasks, id);
    Store(s.agents, RemoveTask(StripContextAll(s.tasks, id), id), StripTaskFromCrews(s.crews, id),
          s.tools, s.knowledgeSources)
  }

  /**
    What the same delete asks the database to do: save each crew and each
    other task it changed (a task once per context list), then delete the
    task.
   */
  function DeleteTaskLog(s: Store, id: string): (log: seq<StoreEvent>)
    ensures |log| > 0 && log[|log| - 1] == DeletedTask(id)
    ensures forall k :: 0 <= k < |log| - 1 ==> TaskCascadeSave(s, id, log[k])
    ensures forall i :: 0 <= i < |s.crews| && id in s.crews[i].taskIds ==> SavedCrew(s.crews[i].id) in log
    ensures forall i :: 0 <= i < |s.tasks| && s.tasks[i].id != id && MentionsContext(s.tasks[i], id) ==> SavedTask(s.tasks[i].id) in log
    ensures !TaskReferenced(s, id) ==> log == [DeletedTask(id)]
  {
    var crewSaves := CrewSaves(s.crews, id);
    var taskSaves := ContextSaves(s.tasks, id);
    var log := crewSaves + taskSaves + [DeletedTask(id)];
    assert forall k :: 0 <= k < |log| - 1 ==> log[k] in crewSaves || log[k] in taskSaves;
    log
  }

  lemma StrippedAt(tasks: seq<Task>, id: string, j: nat)
    requires j < |RemoveTask(StripContextAll(tasks, id), id)|
    ensures exists i :: (0 <= i < |tasks| && tasks[i].id != id &&
      RemoveTask(StripContextAll(tasks, id), id)[j] == StripTaskContext(tasks[i], id).0)
  {
    var stripped := StripContextAll(tasks, id);
    var kept := RemoveTask(stripped, id);
    var u' := kept[j];
    assert u' in kept;
    assert u' in stripped && u'.id != id;
    var i :| 0 <= i < |stripped| && stripped[i] == u';
    assert tasks[i].id != id;
  }

  /** The cascade adds nothing: every task left is another task with its context lists stripped. */
  lemma DeleteTaskAddsNothing(s: Store, id: string)
    ensures forall u' :: u' in DeleteTaskConfirmed(s, id).tasks ==> StrippedFrom(s.tasks, id, u')
  {
    StrippedTasksFrom(s.tasks, id);
  }

  /** No context list holds `id` more than once. */
  predicate NoDuplicateContext(s: Store, id: string)
  {
    forall i :: 0 <= i < |s.tasks| ==>
      multiset(s.tasks[i].contextFromAsyncTaskIds.GetOr([]))[id] <= 1 &&
      multiset(s.tasks[i].contextFromSyncTaskIds.GetOr([]))[id] <= 1
  }

  /**
    When no context list holds `id` twice (the edit form never produces
    duplicates), nothing refers to the task after its delete.
   */
  lemma DeleteTaskLeavesNoReferences(s: Store, id: string)
    requires NoDuplicateContext(s, id)
    ensures !TaskReferenced(DeleteTaskConfirmed(s, id), id)
    ensures TaskDependencies(DeleteTaskConfirmed(s, id), id) == []
  {
    var s' := DeleteTaskConfirmed(s, id);
    StrippedTasksClean(s, id);
    assert !(exists i :: 0 <= i < |s'.crews| && id in s'.crews[i].taskIds);
    assert !TaskReferenced(s', id);
  }

  lemma StrippedTasksClean(s: Store, id: string)
    requires NoDuplicateContext(s, id)
    ensures var ts := DeleteTaskConfirmed(s, id).tasks;
      forall j :: 0 <= j < |ts| ==> !MentionsContext(ts[j], id)
  {
    var ts := DeleteTaskConfirmed(s, id).tasks;
    forall j | 0 <= j < |ts|
      ensures !MentionsContext(ts[j], id)
    {
      StrippedTaskClean(s, id, j);
    }
  }

  lemma StrippedTaskClean(s: Store, id: string, j: nat)
    requires NoDuplicateContext(s, id)
    requires j < |DeleteTaskConfirmed(s, id).tasks|
    ensures !MentionsContext(DeleteTaskConfirmed(s, id).tasks[j], id)
  {
    StrippedAt(s.tasks, id, j);
    var i :| 0 <= i < |s.tasks| && s.tasks[i].id != id &&
      DeleteTaskConfirmed(s, id).tasks[j] == StripTaskContext(s.tasks[i], id).0;
  }

  /** A context list that held the id twice still holds it once after the delete. */
  lemma DeleteTaskKeepsSecondOccurrence(s: Store, id: string, i: nat)
    requires i < |s.tasks| && s.tasks[i].id != id
    requires multiset(s.tasks[i].contextFromAsyncTaskIds.GetOr([]))[id] == 2
    ensures exists u' :: u' in DeleteTaskConfirmed(s, id).tasks && u'.id == s.tasks[i].id && MentionsContext(u', id)
  {
    var u' := StripTaskContext(s.tasks[i], id).0;
    assert multiset(u'.contextFromAsyncTaskIds.value)[id] == 1;
    assert u' in DeleteTaskConfirmed(s, id).tasks;
  }

  /**
    `duplicate` of a task: through the constructor, so an unassigned task
    picks up the first agent when there is one.  A context list is copied
    when non-empty and dropped otherwise, which for a value sequence is the
    same normalisation as `NonEmptyOrNone`.
   */
  function DuplicateTask(s: Store, t: Task, freshId: string, now: string): (r: (Store, Task, seq<StoreEvent>))
    ensures var copy := r.1;
      && copy.id == "T_" + freshId
      && copy.description == t.description + " (Copy)"
      && copy.expectedOutput == OrString(Some(t.expectedOutput), DefaultExpectedOutput)
      && copy.createdAt == now
      && copy.asyncExecution == t.asyncExecution
      && copy.contextFromAsyncTaskIds == NonEmptyOrNone(t.contextFromAsyncTaskIds)
      && copy.contextFromSyncTaskIds == NonEmptyOrNone(t.contextFromSyncTaskIds)
      && (|s.agents| == 0 ==> copy.agentId.None?)
      && (|s.agents| > 0 && t.agentId.Some? ==> copy.agentId == t.agentId)
      && (|s.agents| > 0 && t.agentId.None? ==> copy.agentId == Some(s.agents[0].id))
    ensures r.0 == s.(tasks := s.tasks + [r.1])
    ensures r.2 == [SavedTask(r.1.id)]
  {
    var args := TaskArgs(None, Some(t.description + " (Copy)"), Some(t.expectedOutput), t.agentId,
                         Some(t.asyncExecution), None,
                         NonEmptyOrNone(t.contextFromAsyncTaskIds), NonEmptyOrNone(t.contextFromSyncTaskIds));
    var copy := NewTask(args, freshId, now, s.agents);
    (s.(tasks := s.tasks + [copy]), copy, [SavedTask(copy.id)])
  }

  /** A copy made while the session has agents is as valid as its original, if assigned. */
  lemma DuplicateKeepsValidity(s: Store, t: Task, freshId: string, now: string)
    requires |s.agents| > 0 && t.agentId.Some?
    ensures TaskValid(s, DuplicateTask(s, t, freshId, now).1) <==> TaskValid(s, t)
  {
  }
}
