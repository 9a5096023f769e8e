# CrewAI Studio core, modelled in Dafny

CrewAI Studio is a Streamlit front end for building crews of LLM agents. This
project models the deterministic logic beneath its UI:

- **Entity store** (`entities.dfy`, `agents.dfy`, `tasks.dfy`): the agent, task,
  crew, tool and knowledge-source records, their validity rules, dependency
  analysis, the confirmed-delete cascades, duplication, and the checks made
  before runtime handles are built. Persistence is modelled as a log of
  `StoreEvent`s (saved crew, saved task, deleted agent, ...) that each
  operation returns with its new state.
- **LLM selection** (`llms.dfy`): the `LLM_CONFIG` provider table, the
  `"Provider: Model"` selector strings and their parsing, each provider's
  required-field checks, Azure URL building, and the environment
  switch/restore state machine over two string maps: the process environment
  and the session's `env_vars` snapshot.
- **Sidebar** (`sidebar.dfy`): page badges, page labels, page-name extraction,
  the validation-error list and its ten-item summary.
- **Results page** (`results.dfy`): crew filter, stable newest-first sort,
  input summary, download file names, delete and re-run.
- **Flows** (`flow.dfy`, `flow_page.dfy`): flow defaults, the entry selector,
  Graphviz DOT generation, the flow list's create/delete/version update, and
  the sketch pad's node and edge parsing.

`base.dfy`, `strings.dfy` and `seqs.dfy` hold the shared pieces:
- `Option` and `Result`;
- the Python string operations the code relies on, written out: `str.find`,
  `split`, `join`, `strip`, `splitlines`, slicing and `str(int)`;
- sequence helpers: the `remove`/filter idioms and subsequence order.

Fresh random ids and timestamps are parameters. Timestamps on results are
integers ordered like the ISO strings they stand for. A Python value that is
absent or `None` is an `Option`. `x or default` is modelled with its falsy
reading: an empty string also falls back.

Two behaviours of the code are worth stating up front:
- The credential switcher (`app/llms.py:36-47`, `app/llms.py:292-304`) writes
  each new value into the session snapshot as well as the process
  environment, and it restores only after a successful construction. So the
  switch is not undone on error, and a value written by one build stays in
  the snapshot for the next. `Llms.OllamaThenOpenAi` shows the consequence:
  after an Ollama model is built, a following OpenAI build uses the Ollama
  host and key.
- `is_valid` of an agent (`app/my_agent.py:176-182`) looks only at the
  tools. An unconfigured LLM is caught later, when the runtime agent is
  built (`Agents.BuildAgent`).

## Model

| member | source | states |
|---|---|---|
| Agents.NewAgent | app/my_agent.py:11-29 | Without an explicit id the agent gets one starting `"A_"`. Without an explicit selection it gets the first available `"Provider: Model"` entry, or the sentinel `"none:none"` when none exist. Role, goal, backstory and creation time are the given text, or the default (the clock for the time) when that text is missing or empty. Temperature and iteration count are the given value unless it is missing or zero, and then the default. |
| Agents.DefaultAgent | app/my_agent.py:12-29 | An agent built with no arguments carries every documented default: role, goal, backstory, temperature, max iterations, flags, empty tool and knowledge lists. |
| Agents.NoToolsAgentValid | app/my_agent.py:176-182 | An agent with no tools is valid whatever its LLM setting. |
| Agents.DefaultSelectionIsValidated | app/my_agent.py:20-24 | A defaulted LLM selection is already what `validate_llm_provider_model` would choose, so validation leaves a new agent unchanged. |
| Agents.ValidateLlm | app/my_agent.py:184-190 | Afterwards the selection is in the available list, or is the sentinel when that list is empty. An already-available selection and every other field are kept. |
| Agents.ValidateLlmIdempotent | app/my_agent.py:184-190 | Validating twice is the same as validating once. |
| Agents.BuildAgent | app/my_agent.py:42-76 | An empty or sentinel selection fails with a configuration error before any LLM is created, leaving the environment untouched. Otherwise the build succeeds iff the LLM build does. The handle carries the LLM the selection built, and the agent's role, goal, backstory, delegation, verbose, iteration-limit and cache settings and tool ids. Knowledge ids are attached iff one of them names an existing source. They are then a subsequence of the agent's list that keeps every copy of each id that names a source and nothing else. |
| Agents.CrewsWithAgent | app/my_agent.py:95-97 | Non-empty iff some crew lists the agent. |
| Agents.CrewsWithAgentInOrder | app/my_agent.py:95-97 | The names are exactly those of the crews listing the agent, one per crew, in crew order. |
| Agents.TasksOfAgent | app/my_agent.py:99-102 | Non-empty iff some task is assigned to the agent. |
| Agents.TasksOfAgentInOrder | app/my_agent.py:99-102 | The entries are exactly the tasks assigned to the agent, one per task, in task order, each as the first 40 characters of its description. |
| Agents.AgentDependencies | app/my_agent.py:90-104 | Reports a crew conflict iff some crew contains the agent, and a task conflict iff some task's agent is this one. No report iff the agent is unreferenced. |
| Agents.StripAgentFromCrews | app/my_agent.py:133-136 | Every crew loses every occurrence of the id from its agent list. Crews that did not list it are unchanged. |
| Agents.CrewSaves | app/my_agent.py:133-136 | A crew is saved iff it listed the agent, and every save is of such a crew. Nothing is saved when no crew lists it. |
| Agents.CrewSavesInOrder | app/my_agent.py:133-136 | The saves are exactly one per crew that lists the agent, in crew-list order. |
| Agents.UnassignAgent | app/my_agent.py:139-142 | Tasks assigned to the agent lose their agent. All other tasks are unchanged. |
| Agents.TaskSaves | app/my_agent.py:139-142 | Exactly the tasks that were assigned to the agent are saved. |
| Agents.TaskSavesInOrder | app/my_agent.py:139-142 | One save per task assigned to the agent, in task-list order. |
| Agents.RemoveAgent | app/my_agent.py:78-80 | Every agent with the id is removed. Every other agent keeps its count, the survivors keep their order, and no agent is added. |
| Agents.DeleteAgentConfirmed | app/my_agent.py:131-147 | After the cascade no crew lists the agent, no task points at it and no agent has its id. Each crew is the original crew with every occurrence of the id removed from its agent list. Each task assigned to the agent loses its agent, and every other task is unchanged. The other agents keep their counts and their order. Tools and knowledge sources are kept. |
| Agents.DeleteAgentLog | app/my_agent.py:131-147 | The agent's deletion is the last event. Every earlier event saves a crew that listed the agent or a task assigned to it, and every such crew and task is saved. |
| Agents.DeleteAgentLeavesNoDependencies | app/my_agent.py:90-104 | After a confirmed delete, dependency analysis finds nothing for the id. |
| Agents.DeleteUnreferencedAgent | app/my_agent.py:131-147 | Deleting an unreferenced agent only removes it. The log holds the deletion alone. |
| Agents.DuplicateAgent | app/my_agent.py:151-169 | Appends one agent with a fresh `"A_"` id, the role plus `" (Copy)"`, the same LLM selection, flags, tools and knowledge ids, and saves it. Backstory, goal, temperature and iteration limit pass through the constructor again: an empty text or a zero number, which the edit form can produce, is reset to its default. |
| Agents.DuplicateCopiesNormalisedAgent | app/my_agent.py:151-169 | For an agent the constructor would not change, the copy differs from the original only in id, role and creation time. |
| Agents.ConstructedAgentsAreNormalised | app/my_agent.py:12-29 | Every constructed agent has non-empty backstory and goal, and non-zero temperature and max iterations. A copy taken before any edit is therefore exact apart from id, role and time; after the form has emptied a text or zeroed a number, the copy carries the default instead. |
| Agents.FirstParameterValue | app/my_agent.py:171-174 | Present iff the tool has a first parameter name, that name has a value, and the value is non-empty. |
| Agents.ToolDisplayName | app/my_agent.py:171-174 | The name is `"<tool name> (<first parameter value or tool id>)"`. |
| Agents.ToolDisplayNameInjective | app/my_agent.py:171-174 | Two tools with the same name but different first values get different display names. |
| Agents.FilterKnowledge | app/my_agent.py:233-244 | When sources exist, the ids are filtered to those still present, in order: every copy of an id that names a source stays, and no other id does. The agent is saved iff something was dropped. With no sources, nothing changes. |
| Agents.FilterKnowledgeIdempotent | app/my_agent.py:236-244 | Filtering an already-filtered agent changes nothing and saves nothing. |
| Tasks.NonEmptyOrNone | app/my_task.py:16-17 | Empty or missing context lists become `None`. Non-empty ones are kept. |
| Tasks.NewTask | app/my_task.py:10-18 | Without an explicit id the task gets one starting `"T_"`. With no agents it has no agent, even if one was passed. Otherwise it gets the given agent or the first agent. Description, expected output and creation time are the given text, or the default (the clock for the time) when missing or empty. Context lists are normalised. |
| Tasks.ExplicitAgentDroppedWithoutAgents | app/my_task.py:14 | Because of operator precedence, an explicitly passed agent is dropped when the agent list is empty. |
| Tasks.DefaultAgentDecidesValidity | app/my_task.py:14 | A task created without an agent is valid exactly when the first agent is valid. |
| Tasks.AssembleContext | app/my_task.py:31-41 | The context is the async ids followed by the sync ids, or nothing when both are empty. |
| Tasks.BuildTask | app/my_task.py:31-41 | Building fails without an agent. Otherwise it succeeds iff the agent build does. The result carries the description, the expected output, the async flag, the handle that building the task's agent gives, and the assembled context. |
| Tasks.CrewsWithTask | app/my_task.py:60-62 | Non-empty iff some crew lists the task. |
| Tasks.CrewsWithTaskInOrder | app/my_task.py:60-62 | The names are exactly those of the crews listing the task, one per crew, in crew order. |
| Tasks.ContextUsers | app/my_task.py:64-72 | Non-empty iff some other task names this one in its async or sync context. The task itself never counts. |
| Tasks.ContextUsersInOrder | app/my_task.py:64-72 | The entries are exactly the other tasks naming this one in a context list, one per task, in task order, each as the first 40 characters of its description. |
| Tasks.TaskDependencies | app/my_task.py:55-74 | Reports a crew conflict iff some crew lists the task, and a context conflict iff some other task uses it as context. No report iff the task is unreferenced. |
| Tasks.StripTaskFromCrews | app/my_task.py:103-106 | Every crew loses every occurrence of the task. Other crews are unchanged. |
| Tasks.CrewSaves | app/my_task.py:103-106 | A crew is saved iff it listed the task, and every save is of such a crew. |
| Tasks.CrewSavesInOrder | app/my_task.py:103-106 | The saves are exactly one per crew that lists the task, in crew-list order. |
| Tasks.RemoveContext | app/my_task.py:109-116 | The first occurrence of the id is cut out of a context list: the ids before it, then the ids after it. Every other id's count is kept. A list without the id is unchanged. |
| Tasks.RemoveFirstOnlyWhenSingle | app/my_task.py:109-116 | Removing the first occurrence clears the id only when it occurred at most once. |
| Tasks.StripTaskContext | app/my_task.py:109-116 | Both context lists of a task lose one occurrence of the id. The task is saved once per list that held it. A task that did not mention the id is unchanged and not saved. |
| Tasks.StripContextAll | app/my_task.py:109-116 | Every task except the deleted one has its context stripped. |
| Tasks.ContextSaves | app/my_task.py:109-116 | A save is logged exactly for the other tasks that used the id as context. |
| Tasks.ContextSavesInOrder | app/my_task.py:109-116 | In task order, each other task that used the id as context is saved once per context list that held it. |
| Tasks.RemoveTask | app/my_task.py:43-45 | Every task with the id is removed. Every other task keeps its count, the survivors keep their order, and none is added. |
| Tasks.DeleteTaskConfirmed | app/my_task.py:101-121 | After the cascade no crew lists the task and no task has its id. Each crew is the original crew with every occurrence of the id removed from its task list. The remaining tasks are the other tasks with their context stripped, in their original order and with their counts kept. Agents, tools and sources are kept. |
| Tasks.DeleteTaskLog | app/my_task.py:101-121 | The task's deletion is the last event. Every earlier event saves a crew that listed it or a task that used it as context, and all such are saved. An unreferenced task only logs its deletion. |
| Tasks.DeleteTaskAddsNothing | app/my_task.py:101-121 | Every task left after the delete is the stripped form of some other original task. |
| Tasks.DeleteTaskLeavesNoReferences | app/my_task.py:55-74 | When no task lists the id twice in one context list, dependency analysis finds nothing after the delete. |
| Tasks.DeleteTaskKeepsSecondOccurrence | app/my_task.py:111-116 | `list.remove` drops only the first occurrence, so a task naming the id twice still names it after the delete. |
| Tasks.DuplicateTask | app/my_task.py:125-138 | Appends one task with a fresh `"T_"` id, the description plus `" (Copy)"`, the expected output (the default when it is empty), the same async flag and copied context lists, and saves it. The agent passes through the constructor, so it is dropped when there are no agents. |
| Tasks.DuplicateKeepsValidity | app/my_task.py:125-147 | A copy of a task with an agent is valid iff the original is. |
| Entities.AllToolsValid | app/my_agent.py:176-182 | True iff every tool in the list is valid. |
| Entities.AgentIndex | app/my_task.py:140-147 | Finds the first agent with the id, or reports that none has it. |
| Entities.TaskValid | app/my_task.py:140-147 | A task is valid iff it has an agent that resolves and all of that agent's tools are valid. |
| Llms.Written | app/llms.py:36-40 | Exactly the keys whose new value is not `None` are written. |
| Llms.SwitchEnvironment | app/llms.py:36-40 | Each non-`None` entry is written to both the process environment and the snapshot. Every other key is untouched in both. |
| Llms.RestoreEnvironment | app/llms.py:42-47 | Afterwards each snapshot key holds its snapshot value when that is not `None` and is absent otherwise. Keys outside the snapshot, and the snapshot itself, are untouched. |
| Llms.RestoreFixpoints | app/llms.py:42-47 | Restoring changes nothing iff the environment already mirrors the snapshot. |
| Llms.RestoreIdempotent | app/llms.py:42-47 | Restoring twice is the same as restoring once. |
| Llms.ModelsFromSetting | app/llms.py:220 | A set, non-empty model setting is split on `','`: the pieces are free of commas and join back to it. Otherwise the built-in list is used. |
| Llms.ProviderNamesWellFormed | app/llms.py:218-287 | No provider name contains `':'`, and names are distinct. |
| Llms.LlmConfig | app/llms.py:218-287 | The table lists the nine providers in their configured order, each with its constructor. |
| Llms.ProviderSelectors | app/llms.py:289-290 | One `"P: M"` selector per model of a provider, in order. |
| Llms.ProvidersAndModels | app/llms.py:289-290 | The list has one entry per (provider, model) pair of the configuration. |
| Llms.ProvidersAndModelsListed | app/llms.py:289-290 | A string is listed iff it is `"P: M"` for some configured provider P and one of its models M. |
| Llms.ParseSelector | app/llms.py:292-296 | Rejects strings without `": "`. Otherwise it splits at the first `": "`, and the pieces rebuild the selector. |
| Llms.SelectorRoundTrip | app/llms.py:292-296 | Every selector whose provider has no `':'` parses back to its provider and model, even when the model contains `':'`. |
| Llms.FindProvider | app/llms.py:297 | Finds the constructor of a provider with that name, or reports that none exists. |
| Llms.SnapshotIndex | app/llms.py:54-55 | Indexing the snapshot fails exactly on a missing key. |
| Llms.CreateOpenAi | app/llms.py:52-63 | Succeeds iff the key and base are in the snapshot and the key (or the environment's key when the snapshot holds `None`) is non-empty. The base URL is the switched environment's base. |
| Llms.CreateAnthropic | app/llms.py:65-79 | Succeeds iff an Anthropic key is available. The handle then has the Anthropic provider, the requested model, no base URL, and the key as read from the switched environment, which is the snapshot's key when the snapshot holds one. |
| Llms.CreateGroq | app/llms.py:81-90 | Succeeds iff a Groq key is available. The handle then has the Groq provider, the requested model, no base URL, and the key as read from the switched environment, which is the snapshot's key when the snapshot holds one. |
| Llms.CreateOllama | app/llms.py:92-101 | Succeeds iff the Ollama host is set. It then leaves `OPENAI_API_KEY="ollama"` and the host as `OPENAI_API_BASE` in the snapshot. Failure switches nothing. |
| Llms.CreateXai | app/llms.py:104-121 | Succeeds iff the xAI key is set, and then uses the xAI host. |
| Llms.CreateGemini | app/llms.py:124-140 | Succeeds iff the key is set and the model starts with `"gemini/"`. A wrong model name is reported as such. |
| Llms.AzureDeployment | app/llms.py:146 | The deployment is the configured deployment name, defaulting to the model. |
| Llms.AzureBaseUrl | app/llms.py:161 | The URL is the endpoint with its trailing `'/'`s stripped, then `"/openai/deployments/"` and the deployment. |
| Llms.CreateAzureOpenAi | app/llms.py:143-170 | Succeeds iff the key and endpoint are set. It then uses the deployment as model and the built base URL. |
| Llms.CreateBedrock | app/llms.py:173-199 | Succeeds iff the AWS region is set, and then carries it. |
| Llms.CreateLmStudio | app/llms.py:201-216 | Succeeds iff an LM Studio base is available, and then uses the `"lm-studio"` key and no model name. |
| Llms.CreateWith | app/llms.py:297-299 | A successful build is for the requested provider. |
| Llms.CreateWithSwitches | app/llms.py:36-40 | Every provider constructor changes the state only by switching some entries. |
| Llms.Finish | app/llms.py:298-301 | The environment is restored after a success and left alone after a failure. The result is passed through. |
| Llms.CreateLlm | app/llms.py:292-304 | A malformed selector fails with nothing switched. After a success the environment mirrors the snapshot. An unknown provider changes nothing. Snapshot keys are never removed, and keys outside the snapshot are left as they were. |
| Llms.CreateLlmDispatch | app/llms.py:292-301 | A well-formed selector for a configured provider builds with that provider's constructor and then restores. |
| Llms.UnknownProviderRejected | app/llms.py:302-304 | A provider missing from the table is rejected with no state change. |
| Llms.ListedSelectorDispatches | app/llms.py:289-301 | Every listed selector dispatches to its own provider's constructor with its own model. |
| Llms.LlmConfigFinds | app/llms.py:218-297 | Every configured provider name is found with its constructor. |
| Llms.OllamaLeaksIntoOpenAi | app/llms.py:92-101 | After an Ollama build and a restore, the environment holds `OPENAI_API_KEY="ollama"`, and an OpenAI build succeeds against the Ollama host. |
| Llms.OllamaThenOpenAi | app/llms.py:292-304 | Through `create_llm`: an OpenAI build that follows a successful Ollama build succeeds using the Ollama host. |
| Sidebar.CountInvalid | app/app.py:47 | The count is the number of entities that fail validation. It is zero iff all are valid. |
| Sidebar.FailingFilters | app/app.py:47 | The failing entities are exactly those the validity filter rejects, in list order. |
| Sidebar.CountBadge | app/app.py:48 | `"(n)"`, followed by `" ⚠️"` iff some entity is invalid. |
| Sidebar.PageBadge | app/app.py:41-81 | Crews, Tools, Agents and Tasks get count badges with warnings. Knowledge and Results get plain counts. Kickoff! gets the rocket iff running. Import/export and unknown pages get nothing. |
| Sidebar.AgentsBadgeWarns | app/app.py:55-58 | The Agents badge warns iff some agent is invalid. |
| Sidebar.PageLabels | app/app.py:105 | One label per page, in page order: the page name, a space, its badge. |
| Sidebar.ExtractPageName | app/app.py:110 | The page name carries no surrounding whitespace and is never longer than the label. |
| Sidebar.ExtractPageNameOfLabel | app/app.py:105-110 | Extracting the page name from any page label gives back the page. |
| Sidebar.ExtractPageNameOfKey | app/app.py:110 | For every page and every badge the sidebar can produce, extraction returns the page. |
| Sidebar.KindErrors | app/app.py:122-139 | There is one error per invalid entity of a kind, as many as `CountInvalid` counts. The k-th error is the kind's prefix followed by the name of the k-th invalid entity. |
| Sidebar.KindErrorsPrefixed | app/app.py:122-139 | Every error of a kind starts with that kind's prefix. |
| Sidebar.ValidationErrors | app/app.py:119-139 | The list is the crew errors, then the agent, task and tool errors. Each section has one entry per invalid entity of its kind, in list order. An entry is `"❌ Crew: "` plus the crew's name, `"❌ Agent: "` plus the first 30 characters of the role, `"❌ Task: "` plus the first 30 characters of the description, or `"❌ Tool: "` plus the tool's name. |
| Sidebar.ValidationErrorsGrouped | app/app.py:119-139 | The error count is the sum of the four invalid counts, and each position carries the prefix of its kind's section. |
| Sidebar.BadgesAgreeWithErrors | app/app.py:41-63 | The error list is non-empty iff some count badge warns. |
| Sidebar.MoreCaption | app/app.py:146 | The caption is `"... and N more"` with N's decimal digits. |
| Sidebar.ValidationSummary | app/app.py:141-148 | "All items valid" iff there are no errors. Otherwise the summary gives the count header and the first min(n, 10) errors, with an overflow caption iff n > 10. |
| Sidebar.SummaryAccountsForAll | app/app.py:141-146 | The errors shown plus the number in the overflow caption equal the total. |
| Results.CrewFilter | app/pg_results.py:35-38 | An empty selection keeps everything. Otherwise exactly the results of selected crews are kept, in order, with every copy of each. |
| Results.SortNewestFirst | app/pg_results.py:44-48 | The output is a permutation of the input, newest first. |
| Results.SortIsStable | app/pg_results.py:44-48 | Results with equal timestamps keep their relative order. |
| Results.SortSortedIsIdentity | app/pg_results.py:44-48 | A list already newest-first is left as it is. |
| Results.InsertNewest | app/pg_results.py:44-48 | Inserting into a newest-first list keeps it newest-first and adds exactly that element. |
| Results.InsertNewestAtTime | app/pg_results.py:44-48 | An insertion puts the new result before the others with the same timestamp. |
| Results.Truncate | app/pg_results.py:62-72 | Values within the width are kept. Longer ones become their first `width` characters plus `"..."`. |
| Results.SummaryWidth | app/pg_results.py:65 | The per-input width is at least 10. Above 10 it is the largest width with width × n within 40, and it is above 10 whenever 11 × n fits in 40. |
| Results.SummaryPart | app/pg_results.py:69-72 | `"key: "` followed by the truncated value. |
| Results.InputSummary | app/pg_results.py:53-74 | Empty iff there are no inputs. One input gives a bar separator, `key: ` and the first 30 characters of the value, with `...` iff the value is longer. Several inputs give the width-limited parts, each preceded by a bar separator. |
| Results.SingleInputIsOnePart | app/pg_results.py:59-62 | The one-input summary is the general layout at width 30. |
| Results.DownloadName | app/pg_results.py:125 | File names are `"<crew>_<id>"` followed by the extension. |
| Results.DownloadNamesDistinct | app/pg_results.py:125-143 | A result's three download names differ exactly when their extensions do. |
| Results.DeleteResult | app/pg_results.py:162-165 | For a result in the list, the first occurrence is removed and the others keep their order. |
| Results.DeleteUniqueResult | app/pg_results.py:162-165 | A result listed once is gone after the delete. |
| Results.FillPlaceholders | app/pg_results.py:153-157 | Adds a `placeholder_<key>` entry per input and keeps unrelated entries. |
| Results.FillPlaceholdersValues | app/pg_results.py:153-157 | Each placeholder holds its input's value. |
| Results.PlaceholderKeyInjective | app/pg_results.py:155 | Distinct input keys give distinct placeholder keys. |
| Results.Rerun | app/pg_results.py:151-160 | Re-run selects the result's crew, goes to Kickoff!, writes each input to its placeholder, and keeps every other placeholder. |
| Flows.NewFlow | app/my_flow.py:17-39 | A new flow has an `"F_"` id, version `"v1"`, the `"manual"` trigger, the creation time given, the four default nodes and the three default edges. |
| Flows.NewFlowEdgesJoinNodes | app/my_flow.py:23-37 | Every edge of a new flow joins two of that flow's nodes. |
| Flows.UpdateNameValidity | app/my_flow.py:41-42 | After a rename, the flow is valid iff the name that results is non-empty. |
| Flows.EntryIndex | app/my_flow.py:47-55 | The selector index points at the flow's trigger, or is 0 for an unknown trigger. |
| Flows.EntryIndexRoundTrip | app/my_flow.py:47-55 | Each known trigger maps to its own index. |
| Flows.Shape | app/my_flow.py:66-67 | A box iff the node's type is task or approval, an ellipse otherwise. |
| Flows.Color | app/my_flow.py:66-68 | One colour for tasks, one for approvals, one for everything else. |
| Flows.UntypedNodeIsTask | app/my_flow.py:66-68 | A node without a type is drawn as a task. |
| Flows.NodeLabel | app/my_flow.py:65 | The label falls back to the node id. |
| Flows.EdgeLabel | app/my_flow.py:73 | The label falls back to the empty string. |
| Flows.GraphLines | app/my_flow.py:59-76 | The lines are the header, the rankdir line, one line per node, one per edge in input order, then `"}"`. There are 3 + nodes + edges lines. |
| Flows.GraphvizLines | app/my_flow.py:75-76 | Splitting the joined DOT text at newlines gives back exactly those lines, when no node or edge field contains a newline. |
| Flows.AsGraphviz | app/my_flow.py:59-76 | The DOT text starts with the `digraph Flow {` header and ends with `'}'`, whatever the arguments. Its lines are stated by `Flows.AsGraphvizLinesOf`. |
| Flows.AsGraphvizFallback | app/my_flow.py:60-61 | Empty node or edge arguments fall back to the stored lists. |
| Flows.AsGraphvizLines | app/my_flow.py:59-76 | The stored flow's DOT text has exactly the lines listed above. |
| Flows.AsGraphvizLinesOf | app/my_flow.py:59-76 | For any node and edge arguments, the DOT text has exactly the graph lines of what it draws: the explicit lists, or the stored ones in place of an empty argument. With both lists given, it is their graph lines. |
| Flows.UpdateName | app/my_flow.py:78-79 | The widget's value replaces the name, or the old name stays. Nothing else changes. |
| Flows.UpdateDescription | app/my_flow.py:81-82 | The widget's value replaces the description, or the old one stays. Nothing else changes. |
| Flows.UpdateEntry | app/my_flow.py:84-85 | The widget's value replaces the trigger, or the old one stays. Nothing else changes. |
| Flows.UpdateEntryKeepsKnown | app/my_flow.py:47-85 | Selecting a known trigger keeps the flow's trigger known to the selector. |
| FlowPage.CreateFlow | app/pg_flows.py:11-15 | Appends one valid flow named `"Flow <k+1>"`, where k is the previous count. |
| FlowPage.DeleteFlow | app/pg_flows.py:17-20 | Removes every flow with the id and keeps the rest in order. |
| FlowPage.DeleteFlowFilters | app/pg_flows.py:17-20 | The result is the list filtered to the other ids: every copy of each other flow stays, in order. |
| FlowPage.DeleteUndoesCreate | app/pg_flows.py:11-20 | Deleting a just-created flow restores the list. |
| FlowPage.UpdateVersion | app/pg_flows.py:62-68 | Only the first flow with the id gets the new version. |
| FlowPage.UpdateVersionKeepsIds | app/pg_flows.py:62-68 | No flow's id changes. |
| FlowPage.UpdateVersionOverwrites | app/pg_flows.py:62-68 | Two updates in a row equal the second alone. |
| FlowPage.SketchNodes | app/pg_flows.py:47 | Every parsed node name is non-empty, trimmed and free of commas. |
| FlowPage.SketchNodesFilters | app/pg_flows.py:47 | The nodes are the pieces of the text split on `','`, each stripped, the blank ones dropped, in order. |
| FlowPage.SketchNodesRoundTrip | app/pg_flows.py:47 | Comma-joined clean names parse back to the same list. |
| Strings.StripCutsWhitespace | app/pg_flows.py:47 | What stripping leaves is a middle slice of the text, and only whitespace was cut from either side. |
| FlowPage.SplitLines | app/pg_flows.py:49 | Every line is free of line breaks. |
| FlowPage.SplitLinesHead | app/pg_flows.py:49 | A line followed by `"\n"` or by `"\r\n"` splits off as that one line; the break belongs to no line. |
| FlowPage.SplitLinesTerminated | app/pg_flows.py:49 | Newline-terminated lines split back into themselves. |
| FlowPage.SplitLinesJoined | app/pg_flows.py:44-49 | Lines joined by `"\n"` without a final break, as the default edge text is written, split back into themselves when the last is not empty. |
| FlowPage.EdgeOf | app/pg_flows.py:50-52 | Lines without `'>'` are skipped. Others split at the first `'>'`. |
| FlowPage.EdgeOfTrimmed | app/pg_flows.py:51 | Both sides of an edge are trimmed. |
| FlowPage.EdgeOfRoundTrip | app/pg_flows.py:50-52 | `"src>dst"` with clean names parses back to the pair. |
| FlowPage.ArrowLines | app/pg_flows.py:49-50 | Counts exactly the lines that contain `'>'`. |
| FlowPage.SketchLines | app/pg_flows.py:46-53 | The header, one declaration per node in order, the edge declarations, then `"}"`. That is 2 + nodes + arrow lines. |
| FlowPage.EdgeDeclsInOrder | app/pg_flows.py:49-52 | The edge declarations are one per line containing `'>'`, in line order. Each is the declaration of that line's source and target. |
| FlowPage.SketchEdgesInOrder | app/pg_flows.py:46-53 | In the sketch, the lines after the node declarations and before `"}"` are the declarations of the arrow lines, in order. |
| FlowPage.SketchDot | app/pg_flows.py:46-54 | The sketch's DOT text starts with the `digraph Flow {` header and ends with `'}'`. |
| FlowPage.SketchDotLines | app/pg_flows.py:46-54 | Splitting the sketch's DOT text at newlines gives exactly those lines. |

## Left out

- The Streamlit UI: rendering, forms, dialogs, toasts, `st.rerun`, the delete-confirmation modal flags and the edit flags. These are presentation only. The confirmed delete is modelled from the point of confirmation.
- Persistence through `db_utils`: it is not part of this model. Each entity-store operation (agents, tasks, and the crews and tasks the cascades touch) returns the save/delete events it would issue, in order.
- Flow and result persistence: `save_flow` and `delete_flow` in the flow list's handlers (`app/pg_flows.py:14,19,67`) and `delete_result` on the results page (`app/pg_results.py:163`) are not logged. `FlowPage.CreateFlow`, `FlowPage.DeleteFlow`, `FlowPage.UpdateVersion` and `Results.DeleteResult` model only the in-memory list.
- The crewai `Agent`/`Task` constructors and the LangChain/litellm LLM clients: these are foreign calls. Each is an opaque handle recording the arguments that matter (`AgentHandle`, `TaskHandle`, `LlmHandle`).
- Converting knowledge sources to runtime objects, with exceptions swallowed (`app/my_agent.py:51-62`): foreign code. The model only records which ids are attached.
- `rnd_id` and the clock: fresh ids and timestamps are parameters. The `strftime` formatting of creation times is not modelled.
- The results page's date-range filter (`app/pg_results.py:39-41`): it is calendar arithmetic on ISO dates.
- Temperatures: kept as a `real` on the agent, but not carried into the LLM handle (floating point).
- `load_secrets_from_env`, `load_dotenv` and how the OpenAI/Ollama model settings are read at start-up: the setting is a parameter of `Llms.LlmConfig`.
- `safe_pop_env_var` (`app/llms.py:49`): it is not called by the modelled functions.
- The Crew and Tool classes: they are not part of this model. A crew's validity is a parameter of the sidebar functions, and a tool's validity is a flag on the tool.
- The flow's state-preview and test-harness dictionaries: they carry no logic.
- Node and edge records with non-string values: every field is an optional string.
- `Flows.UpdateName`, `Flows.UpdateDescription`, `Flows.UpdateEntry`, `FlowPage.UpdateVersion`: the widget value is taken as a string when present. The code would also store a non-string value.
- `Sidebar.ExtractPageName`: its own contract only bounds the length and the trimming. Its real promise, that every label the sidebar builds maps back to its page, is stated by `Sidebar.ExtractPageNameOfLabel` and `Sidebar.ExtractPageNameOfKey`.
- `Tasks.DeleteTaskLeavesNoReferences`: it is stated only for stores where no task lists the deleted id twice in one context list. `Tasks.DeleteTaskKeepsSecondOccurrence` shows the code leaves the second occurrence behind.
- `Results.FillPlaceholdersValues`, `Results.Rerun`: the input values are stated under the assumption of distinct input keys. That always holds for the dictionary the code iterates.
- `Results.DeleteResult`: for a result not in the list the model changes nothing, while `list.remove` raises `ValueError`. The page only deletes a result it has just listed, so that case is not reached.
- Cost tracking, TLS overrides, skills, the remaining pages and the `utils` helpers: they are outside the modelled core.
