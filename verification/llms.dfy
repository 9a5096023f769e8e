/**
  LLM selection and construction.

  A selection is the string `"<Provider>: <Model>"`.  Building a client
  reads the session's credential snapshot (`st.session_state.env_vars`),
  copies the provider's fields into the process environment
  (`switch_environment`), and, only when construction succeeds, rewrites
  the environment from the snapshot (`restore_environment`).

  The two maps form the state machine below.  Two facts about the code are
  kept as they are: `switch_environment` also writes into the snapshot, so
  "restore" restores the snapshot as it stands afterwards, not the values
  from before the switch; and a provider that raises leaves the switched
  environment in place.  The client constructors themselves are foreign
  calls; an `LlmHandle` records the arguments they would receive.
 */
module Llms {
  import opened Base
  import opened Strings

  /** The process environment (`os.environ`); an absent key is an unset variable. */
  type Env = map<string, string>

  /** The session snapshot of credentials; a key may be present with value `None`. */
  type Snapshot = map<string, Option<string>>

  datatype EnvState = EnvState(env: Env, snapshot: Snapshot)

  /** Both maps agree on key `k`: both lack it, or both hold the same value. */
  ghost predicate SameAt<V>(a: map<string, V>, b: map<string, V>, k: string)
  {
    (k in a <==> k in b) && (k in a ==> a[k] == b[k])
  }

  /** The environment mirrors the snapshot: set where the snapshot has a value, unset where it has `None`. */
  ghost predicate MirrorsSnapshot(st: EnvState)
  {
    forall k :: k in st.snapshot ==>
      if st.snapshot[k].Some? then k in st.env && st.env[k] == st.snapshot[k].value else k !in st.env
  }

  /** The entries of an update `switch_environment` writes: those whose value is not `None`. */
  function Written(updates: map<string, Option<string>>): (w: map<string, string>)
    ensures forall k :: k in w <==> k in updates && updates[k].Some?
    ensures forall k :: k in w ==> updates[k] == Some(w[k])
  {
    map k | k in updates && updates[k].Some? :: updates[k].value
  }

  /**
    `switch_environment(new_env_vars)`: every entry with a value is written
    into both the environment and the snapshot; `None` entries and keys not
    mentioned are left alone in both.
   */
  function SwitchEnvironment(st: EnvState, updates: map<string, Option<string>>): (r: EnvState)
    ensures forall k :: k in updates && updates[k].Some? ==>
      k in r.env && r.env[k] == updates[k].value && k in r.snapshot && r.snapshot[k] == updates[k]
    ensures forall k :: !(k in updates && updates[k].Some?) ==>
      SameAt(r.env, st.env, k) && SameAt(r.snapshot, st.snapshot, k)
  {
    var w := Written(updates);
    EnvState(st.env + w, st.snapshot + map k | k in w :: Some(w[k]))
  }

  /**
    `restore_environment()`: every snapshot key with a value is set to it,
    every snapshot key holding `None` is unset, other variables keep their
    values.  The snapshot itself is not touched.
   */
  function RestoreEnvironment(st: EnvState): (r: EnvState)
    ensures r.snapshot == st.snapshot
    ensures MirrorsSnapshot(r)
    ensures forall k :: k !in st.snapshot ==> SameAt(r.env, st.env, k)
  {
    var kept := map k | k in st.env && k !in st.snapshot :: st.env[k];
    var restored := map k | k in st.snapshot && st.snapshot[k].Some? :: st.snapshot[k].value;
    EnvState(kept + restored, st.snapshot)
  }

  /** Restoring is a no-op exactly when the environment already mirrors the snapshot. */
  lemma RestoreFixpoints(st: EnvState)
    ensures RestoreEnvironment(st) == st <==> MirrorsSnapshot(st)
  {
    var r := RestoreEnvironment(st);
    if MirrorsSnapshot(st) {
      forall k | k in r.env ensures k in st.env && r.env[k] == st.env[k] {
        if k in st.snapshot {
          assert st.snapshot[k].Some?;
        }
      }
      forall k | k in st.env ensures k in r.env {
        if k in st.snapshot {
          assert st.snapshot[k].Some?;
        }
      }
      assert r.env == st.env;
    }
  }

  /** Restoring twice is the same as restoring once. */
  lemma RestoreIdempotent(st: EnvState)
    ensures RestoreEnvironment(RestoreEnvironment(st)) == RestoreEnvironment(st)
  {
    RestoreFixpoints(RestoreEnvironment(st));
  }

  datatype ProviderKind =
    | OpenAi | Groq | Ollama | Anthropic | LmStudio | Xai | Gemini | AzureOpenAi | Bedrock

  /** One entry of `LLM_CONFIG`: the provider's display name, its constructor, and its models in order. */
  datatype Provider = Provider(name: string, kind: ProviderKind, models: seq<string>)

  type Config = seq<Provider>

  /**
    A model list read from an environment setting at start-up: the setting
    split on `','` when it is set and non-empty, the built-in list otherwise.
   */
  function ModelsFromSetting(setting: Option<string>, builtIn: seq<string>): (r: seq<string>)
    ensures setting.Some? && setting.value != "" ==> |r| >= 1 && Join(r, ",") == setting.value
    ensures setting.Some? && setting.value != "" ==> forall i :: 0 <= i < |r| ==> ',' !in r[i]
    ensures setting.None? || setting.value == "" ==> r == builtIn
  {
    if setting.Some? && setting.value != "" then Split(setting.value, ',') else builtIn
  }

  /** The keys of `LLM_CONFIG`, in order, and the constructor each one selects. */
  const ProviderNames: seq<string> :=
    ["OpenAI", "Groq", "Ollama", "Anthropic", "LM Studio", "Xai", "Gemini", "Azure OpenAI", "Bedrock"]
  const ProviderKinds: seq<ProviderKind> :=
    [OpenAi, Groq, Ollama, Anthropic, LmStudio, Xai, Gemini, AzureOpenAi, Bedrock]

  /** The configured provider names are distinct and none contains `':'`. */
  lemma ProviderNamesWellFormed()
    ensures forall i :: 0 <= i < |ProviderNames| ==> ':' !in ProviderNames[i]
    ensures forall i, j :: 0 <= i < j < |ProviderNames| ==> ProviderNames[i] != ProviderNames[j]
  {
    forall i, j | 0 <= i < j < |ProviderNames|
      ensures ProviderNames[i] != ProviderNames[j]
    {
      assert ProviderNames[i][0] != ProviderNames[j][0] || ProviderNames[i][1] != ProviderNames[j][1]
        || |ProviderNames[i]| != |ProviderNames[j]|;
    }
  }

  /**
    `LLM_CONFIG`, given the start-up values of `OPENAI_PROXY_MODELS` and
    `OLLAMA_MODELS`.
   */
  function LlmConfig(openAiProxyModels: Option<string>, ollamaModels: Option<string>): (cfg: Config)
    ensures |cfg| == |ProviderNames|
    ensures forall i :: 0 <= i < |cfg| ==> cfg[i].name == ProviderNames[i] && cfg[i].kind == ProviderKinds[i]
  {
    [ Provider("OpenAI", OpenAi, ModelsFromSetting(openAiProxyModels,
        ["gpt-4.1", "gpt-4.1-mini", "gpt-4.1-nano", "gpt-4o", "gpt-4o-mini",
         "gpt-4-turbo", "o3-mini", "o1-mini", "o1", "gpt-3.5-turbo"])),
      Provider("Groq", Groq, ["groq/llama3-8b-8192", "groq/llama3-70b-8192", "groq/mixtral-8x7b-32768"]),
      Provider("Ollama", Ollama, ModelsFromSetting(ollamaModels, [])),
      Provider("Anthropic", Anthropic,
        ["claude-3-5-sonnet-20240620", "claude-3-7-sonnet-20250219",
         "claude-sonnet-4-20250514", "claude-sonnet-4-5-20250929"]),
      Provider("LM Studio", LmStudio, ["lms-default"]),
      Provider("Xai", Xai, ["xai/grok-2-1212", "xai/grok-beta"]),
      Provider("Gemini", Gemini, ["gemini/gemini-2.5-flash", "gemini/gemini-2.5-pro", "gemini/gemini-2.0-flash"]),
      Provider("Azure OpenAI", AzureOpenAi, ["gpt-4o", "gpt-4.1", "gpt-4.1-mini", "gpt-4-turbo"]),
      Provider("Bedrock", Bedrock,
        ["anthropic.claude-3-7-sonnet-20250219-v1:0", "meta.llama3-1-70b-instruct-v1:0",
         "amazon.nova-pro-v1:0", "mistral.mistral-large-2402-v1:0",
         "cohere.command-r-plus-v1:0", "deepseek.r1-v1:0"])
    ]
  }

  /** The selector string for a provider and one of its models. */
  function Selector(provider: string, model: string): string
  {
    provider + ": " + model
  }

  function ProviderSelectors(p: Provider): (r: seq<string>)
    ensures |r| == |p.models|
    ensures forall j :: 0 <= j < |r| ==> r[j] == Selector(p.name, p.models[j])
  {
    seq(|p.models|, j requires 0 <= j < |p.models| => Selector(p.name, p.models[j]))
  }

  /** How many models the configuration lists over all its providers. */
  function ModelCount(cfg: Config): nat
  {
    if |cfg| == 0 then 0 else |cfg[0].models| + ModelCount(cfg[1..])
  }

  /** `llm_providers_and_models()`: every provider in config order, each of its models in order. */
  function ProvidersAndModels(cfg: Config): (r: seq<string>)
    ensures |r| == ModelCount(cfg)
  {
    if |cfg| == 0 then [] else ProviderSelectors(cfg[0]) + ProvidersAndModels(cfg[1..])
  }

  /** A string is listed exactly when it is `"P: M"` for a configured provider P and one of its models M. */
  lemma {:induction false} ProvidersAndModelsListed(cfg: Config, s: string)
    ensures s in ProvidersAndModels(cfg) <==>
      exists i, j :: 0 <= i < |cfg| && 0 <= j < |cfg[i].models| && s == Selector(cfg[i].name, cfg[i].models[j])
  {
    if |cfg| > 0 {
      ProvidersAndModelsListed(cfg[1..], s);
      var head := ProviderSelectors(cfg[0]);
      if s in head {
        var j :| 0 <= j < |head| && head[j] == s;
        assert 0 < |cfg| && 0 <= j < |cfg[0].models| && s == Selector(cfg[0].name, cfg[0].models[j]);
      }
      if exists i, j :: 0 <= i < |cfg| && 0 <= j < |cfg[i].models| && s == Selector(cfg[i].name, cfg[i].models[j]) {
        var i, j :| 0 <= i < |cfg| && 0 <= j < |cfg[i].models| && s == Selector(cfg[i].name, cfg[i].models[j]);
        if i == 0 {
          assert head[j] == s;
        } else {
          assert cfg[1..][i - 1] == cfg[i];
        }
      }
    }
  }

  datatype LlmError =
    | MalformedSelector
    | UnknownProvider(provider: string)
    | MissingSetting(key: string)
    | MissingCredential(message: string)
    | BadModelName(model: string)

  /**
    The arguments a client constructor receives.  `model` is `None` for LM
    Studio, whose constructor is not given the selected model.
   */
  datatype LlmHandle = LlmHandle(
    provider: ProviderKind,
    model: Option<string>,
    baseUrl: Option<string>,
    apiKey: Option<string>,
    apiVersion: Option<string>,
    region: Option<string>)

  /** The outcome of one construction together with the state it leaves behind, raised or not. */
  datatype Attempt = Attempt(result: Result<LlmHandle, LlmError>, after: EnvState)

  /**
    `"P: M"` parsed at the first `": "`; a string without `": "` is
    rejected.
   */
  function ParseSelector(selector: string): (r: Result<(string, string), LlmError>)
    ensures r.Failure? <==> !Contains(selector, ": ")
    ensures r.Failure? ==> r.error == MalformedSelector
    ensures r.Success? ==> selector == Selector(r.value.0, r.value.1) && !Contains(r.value.0, ": ")
  {
    match SplitOnce(selector, ": ")
    case None => Failure(MalformedSelector)
    case Some(parts) => Success(parts)
  }

  lemma SeparatorNotInProvider(provider: string, model: string, j: nat)
    requires ':' !in provider && j < |provider|
    ensures !OccursAt(Selector(provider, model), ": ", j)
  {
    var s := Selector(provider, model);
    assert s[j] == provider[j];
  }

  /** Every selector built from a provider name without `':'` parses back to that provider and model. */
  lemma SelectorRoundTrip(provider: string, model: string)
    requires ':' !in provider
    ensures ParseSelector(Selector(provider, model)) == Success((provider, model))
  {
    var s := Selector(provider, model);
    assert OccursAt(s, ": ", |provider|) by { assert s[|provider|..|provider| + 2] == ": "; }
    var i := IndexOf(s, ": ").value;
    if i < |provider| {
      SeparatorNotInProvider(provider, model, i);
    }
    assert i == |provider|;
    assert s[..|provider|] == provider;
    assert s[i + 2..] == model;
  }

  /** The constructor of the first configured provider with that name, if any. */
  function FindProvider(cfg: Config, name: string): (r: Option<ProviderKind>)
    ensures r.None? <==> forall i :: 0 <= i < |cfg| ==> cfg[i].name != name
    ensures r.Some? ==> exists i :: 0 <= i < |cfg| && cfg[i].name == name && cfg[i].kind == r.value
  {
    if |cfg| == 0 then None
    else if cfg[0].name == name then Some(cfg[0].kind)
    else
      var r := FindProvider(cfg[1..], name);
      assert forall i :: 1 <= i < |cfg| ==> cfg[i] == cfg[1..][i - 1];
      r
  }

  /** Python truthiness of an optional string: set and non-empty. */
  predicate Truthy(v: Option<string>)
  {
    v.Some? && v.value != ""
  }

  /** The environment value of `k`: `None` when the key is missing or holds no value. */
  function SnapshotGet(st: EnvState, k: string): Option<string>
  {
    if k in st.snapshot then st.snapshot[k] else None
  }

  /** Reading a key of the session snapshot: a missing key is an error. */
  function SnapshotIndex(st: EnvState, k: string): (r: Result<Option<string>, LlmError>)
    ensures r.Failure? <==> k !in st.snapshot
    ensures r.Success? ==> r.value == SnapshotGet(st, k)
  {
    if k in st.snapshot then Success(st.snapshot[k]) else Failure(MissingSetting(k))
  }

  /** Reading a key of the process environment: absent when unset. */
  function EnvGet(env: Env, k: string): Option<string>
  {
    if k in env then Some(env[k]) else None
  }

  function Handle(kind: ProviderKind, model: Option<string>, baseUrl: Option<string>,
                  apiKey: Option<string>, apiVersion: Option<string>, region: Option<string>): LlmHandle
  {
    LlmHandle(kind, model, baseUrl, apiKey, apiVersion, region)
  }

  const XaiHost := "https://api.x.ai/v1"

  /**
    `create_openai_llm`: copies the snapshot's OpenAI key and base into the
    environment, then needs a non-empty key in the environment.  A `None`
    key in the snapshot is not written, so a key already in the process
    environment still counts.
   */
  function CreateOpenAi(model: string, st: EnvState): (r: Attempt)
    ensures r.result.Success? <==>
      "OPENAI_API_KEY" in st.snapshot && "OPENAI_API_BASE" in st.snapshot &&
      (if st.snapshot["OPENAI_API_KEY"].Some? then st.snapshot["OPENAI_API_KEY"].value != ""
       else Truthy(EnvGet(st.env, "OPENAI_API_KEY")))
    ensures r.result.Success? ==> r.result.value.baseUrl == EnvGet(r.after.env, "OPENAI_API_BASE")
    ensures r.result.Success? && SnapshotGet(st, "OPENAI_API_BASE").Some? ==>
      r.result.value.baseUrl == SnapshotGet(st, "OPENAI_API_BASE")
  {
    match SnapshotIndex(st, "OPENAI_API_KEY")
    case Failure(e) => Attempt(Failure(e), st)
    case Success(key) =>
      match SnapshotIndex(st, "OPENAI_API_BASE")
      case Failure(e) => Attempt(Failure(e), st)
      case Success(base) =>
        var updates := map["OPENAI_API_KEY" := key, "OPENAI_API_BASE" := base];
        assert updates["OPENAI_API_KEY"] == key && updates["OPENAI_API_BASE"] == base;
        var st1 := SwitchEnvironment(st, updates);
        if Truthy(EnvGet(st1.env, "OPENAI_API_KEY")) then
          Attempt(Success(Handle(OpenAi, Some(model), EnvGet(st1.env, "OPENAI_API_BASE"), None, None, None)), st1)
        else
          Attempt(Failure(MissingCredential("OpenAI API key not set in .env file")), st1)
  }

  /** `create_anthropic_llm`: the key comes from the environment after the switch. */
  function CreateAnthropic(model: string, st: EnvState): (r: Attempt)
    ensures r.result.Success? <==>
      "ANTHROPIC_API_KEY" in st.snapshot &&
      (if st.snapshot["ANTHROPIC_API_KEY"].Some? then st.snapshot["ANTHROPIC_API_KEY"].value != ""
       else Truthy(EnvGet(st.env, "ANTHROPIC_API_KEY")))
    ensures r.result.Success? ==> Truthy(r.result.value.apiKey)
    ensures r.result.Success? ==>
      var h := r.result.value;
      && h.provider == Anthropic && h.model == Some(model) && h.baseUrl.None?
      && h.apiKey == EnvGet(r.after.env, "ANTHROPIC_API_KEY")
      && (st.snapshot["ANTHROPIC_API_KEY"].Some? ==> h.apiKey == st.snapshot["ANTHROPIC_API_KEY"])
  {
    match SnapshotIndex(st, "ANTHROPIC_API_KEY")
    case Failure(e) => Attempt(Failure(e), st)
    case Success(key) =>
      var st1 := SwitchEnvironment(st, map["ANTHROPIC_API_KEY" := key]);
      var apiKey := EnvGet(st1.env, "ANTHROPIC_API_KEY");
      if Truthy(apiKey) then
        Attempt(Success(Handle(Anthropic, Some(model), None, apiKey, None, None)), st1)
      else
        Attempt(Failure(MissingCredential("Anthropic API key not set in .env file")), st1)
  }

  /** `create_groq_llm`: the key comes from the environment after the switch. */
  function CreateGroq(model: string, st: EnvState): (r: Attempt)
    ensures r.result.Success? <==>
      "GROQ_API_KEY" in st.snapshot &&
      (if st.snapshot["GROQ_API_KEY"].Some? then st.snapshot["GROQ_API_KEY"].value != ""
       else Truthy(EnvGet(st.env, "GROQ_API_KEY")))
    ensures r.result.Success? ==> Truthy(r.result.value.apiKey)
    ensures r.result.Success? ==>
      var h := r.result.value;
      && h.provider == Groq && h.model == Some(model) && h.baseUrl.None?
      && h.apiKey == EnvGet(r.after.env, "GROQ_API_KEY")
      && (st.snapshot["GROQ_API_KEY"].Some? ==> h.apiKey == st.snapshot["GROQ_API_KEY"])
  {
    match SnapshotIndex(st, "GROQ_API_KEY")
    case Failure(e) => Attempt(Failure(e), st)
    case Success(key) =>
      var st1 := SwitchEnvironment(st, map["GROQ_API_KEY" := key]);
      var apiKey := EnvGet(st1.env, "GROQ_API_KEY");
      if Truthy(apiKey) then
        Attempt(Success(Handle(Groq, Some(model), None, apiKey, None, None)), st1)
      else
        Attempt(Failure(MissingCredential("Groq API key not set in .env file")), st1)
  }

  /**
    `create_ollama_llm`: needs a host; on success the OpenAI key and base in
    both the environment and the snapshot become `"ollama"` and the host.
   */
  function CreateOllama(model: string, st: EnvState): (r: Attempt)
    ensures r.result.Success? <==> Truthy(SnapshotGet(st, "OLLAMA_HOST")) && "OLLAMA_HOST" in st.snapshot
    ensures r.result.Failure? ==> r.after == st
    ensures r.result.Success? ==>
      SnapshotGet(r.after, "OPENAI_API_KEY") == Some("ollama") &&
      SnapshotGet(r.after, "OPENAI_API_BASE") == SnapshotGet(st, "OLLAMA_HOST") &&
      r.result.value.baseUrl == SnapshotGet(st, "OLLAMA_HOST")
  {
    match SnapshotIndex(st, "OLLAMA_HOST")
    case Failure(e) => Attempt(Failure(e), st)
    case Success(host) =>
      if Truthy(host) then
        var updates := map["OPENAI_API_KEY" := Some("ollama"), "OPENAI_API_BASE" := host];
        assert updates["OPENAI_API_KEY"] == Some("ollama") && updates["OPENAI_API_BASE"] == host;
        var st1 := SwitchEnvironment(st, updates);
        Attempt(Success(Handle(Ollama, Some(model), host, None, None, None)), st1)
      else
        Attempt(Failure(MissingCredential("Ollama Host is not set in .env file")), st)
  }

  /** `create_xai_llm`: needs `XAI_API_KEY`, checked before anything is switched. */
  function CreateXai(model: string, st: EnvState): (r: Attempt)
    ensures r.result.Success? <==> Truthy(SnapshotGet(st, "XAI_API_KEY"))
    ensures r.result.Failure? ==> r.after == st
    ensures r.result.Success? ==>
      r.result.value.apiKey == SnapshotGet(st, "XAI_API_KEY") && r.result.value.baseUrl == Some(XaiHost)
  {
    var key := SnapshotGet(st, "XAI_API_KEY");
    if !Truthy(key) then
      Attempt(Failure(MissingCredential("XAI_API_KEY must be set in .env file")), st)
    else
      var st1 := SwitchEnvironment(st, map["OPENAI_API_KEY" := key, "OPENAI_API_BASE" := Some(XaiHost)]);
      Attempt(Success(Handle(Xai, Some(model), Some(XaiHost), key, None, None)), st1)
  }

  /** `create_gemini_llm`: needs `GEMINI_API_KEY` and a model named `gemini/...`. */
  function CreateGemini(model: string, st: EnvState): (r: Attempt)
    ensures r.result.Success? <==> Truthy(SnapshotGet(st, "GEMINI_API_KEY")) && StartsWith(model, "gemini/")
    ensures r.result.Failure? ==> r.after == st
    ensures Truthy(SnapshotGet(st, "GEMINI_API_KEY")) && !StartsWith(model, "gemini/") ==>
      r.result == Failure(BadModelName(model))
  {
    var key := SnapshotGet(st, "GEMINI_API_KEY");
    if !Truthy(key) then
      Attempt(Failure(MissingCredential("GEMINI_API_KEY must be set in .env file")), st)
    else if !StartsWith(model, "gemini/") then
      Attempt(Failure(BadModelName(model)), st)
    else
      var st1 := SwitchEnvironment(st, map["GEMINI_API_KEY" := key]);
      Attempt(Success(Handle(Gemini, Some(model), None, key, None, None)), st1)
  }

  /** The Azure deployment: the configured deployment name, or the model when that is unset or empty. */
  function AzureDeployment(model: string, st: EnvState): (d: string)
    ensures Truthy(SnapshotGet(st, "AZURE_OPENAI_DEPLOYMENT_NAME")) ==> d == SnapshotGet(st, "AZURE_OPENAI_DEPLOYMENT_NAME").value
    ensures !Truthy(SnapshotGet(st, "AZURE_OPENAI_DEPLOYMENT_NAME")) ==> d == model
  {
    var configured := SnapshotGet(st, "AZURE_OPENAI_DEPLOYMENT_NAME");
    if Truthy(configured) then configured.value else model
  }

  /**
    The Azure base URL: the endpoint without its trailing slashes, then
    `/openai/deployments/` and the deployment.
   */
  function AzureBaseUrl(endpoint: string, deployment: string): (url: string)
    ensures exists n: nat :: (n <= |endpoint| &&
      url == endpoint[..n] + "/openai/deployments/" + deployment &&
      (n == 0 || endpoint[n - 1] != '/') &&
      forall i :: n <= i < |endpoint| ==> endpoint[i] == '/')
  {
    var trimmed := TrimRight(endpoint, c => c == '/');
    assert endpoint[..|trimmed|] == trimmed;
    trimmed + "/openai/deployments/" + deployment
  }

  /** `create_azure_openai_llm`: needs both the key and the endpoint. */
  function CreateAzureOpenAi(model: string, st: EnvState): (r: Attempt)
    ensures r.result.Success? <==>
      Truthy(SnapshotGet(st, "AZURE_OPENAI_API_KEY")) && Truthy(SnapshotGet(st, "AZURE_OPENAI_ENDPOINT"))
    ensures r.result.Failure? ==> r.after == st
    ensures r.result.Success? ==>
      r.result.value.model == Some(AzureDeployment(model, st)) &&
      r.result.value.baseUrl == Some(AzureBaseUrl(SnapshotGet(st, "AZURE_OPENAI_ENDPOINT").value, AzureDeployment(model, st)))
  {
    var key := SnapshotGet(st, "AZURE_OPENAI_API_KEY");
    var endpoint := SnapshotGet(st, "AZURE_OPENAI_ENDPOINT");
    var deployment := AzureDeployment(model, st);
    var version := SnapshotGet(st, "AZURE_OPENAI_API_VERSION");
    if !Truthy(key) || !Truthy(endpoint) then
      Attempt(Failure(MissingCredential("AZURE_OPENAI_API_KEY and AZURE_OPENAI_ENDPOINT must be set in .env file")), st)
    else
      var st1 := SwitchEnvironment(st, map[
        "AZURE_OPENAI_API_KEY" := key,
        "AZURE_OPENAI_ENDPOINT" := endpoint,
        "AZURE_OPENAI_DEPLOYMENT_NAME" := Some(deployment),
        "AZURE_OPENAI_API_VERSION" := version]);
      Attempt(Success(Handle(AzureOpenAi, Some(deployment), Some(AzureBaseUrl(endpoint.value, deployment)), key, version, None)), st1)
  }

  /** `create_bedrock_llm`: needs `AWS_REGION`; the AWS key fields are passed on even when unset. */
  function CreateBedrock(model: string, st: EnvState): (r: Attempt)
    ensures r.result.Success? <==> Truthy(SnapshotGet(st, "AWS_REGION"))
    ensures r.result.Failure? ==> r.after == st
    ensures r.result.Success? ==> r.result.value.region == SnapshotGet(st, "AWS_REGION")
  {
    var region := SnapshotGet(st, "AWS_REGION");
    if !Truthy(region) then
      Attempt(Failure(MissingCredential("AWS_REGION must be set in .env file for Bedrock models")), st)
    else
      var st1 := SwitchEnvironment(st, map[
        "AWS_REGION" := region,
        "AWS_ACCESS_KEY_ID" := SnapshotGet(st, "AWS_ACCESS_KEY_ID"),
        "AWS_SECRET_ACCESS_KEY" := SnapshotGet(st, "AWS_SECRET_ACCESS_KEY"),
        "AWS_SESSION_TOKEN" := SnapshotGet(st, "AWS_SESSION_TOKEN")]);
      Attempt(Success(Handle(Bedrock, Some(model), None, None, None, region)), st1)
  }

  /**
    `create_lmstudio_llm`: switches the OpenAI key to `"lm-studio"` and the
    base to the LM Studio base, then needs a non-empty base in the
    environment.  When the LM Studio base is `None` nothing is written, so
    whatever OpenAI base the environment already holds is used.
   */
  function CreateLmStudio(model: string, st: EnvState): (r: Attempt)
    ensures r.result.Success? <==>
      "LMSTUDIO_API_BASE" in st.snapshot &&
      (if st.snapshot["LMSTUDIO_API_BASE"].Some? then st.snapshot["LMSTUDIO_API_BASE"].value != ""
       else Truthy(EnvGet(st.env, "OPENAI_API_BASE")))
    ensures r.result.Success? ==> r.result.value.model.None? && r.result.value.apiKey == Some("lm-studio")
  {
    match SnapshotIndex(st, "LMSTUDIO_API_BASE")
    case Failure(e) => Attempt(Failure(e), st)
    case Success(base) =>
      var updates := map["OPENAI_API_KEY" := Some("lm-studio"), "OPENAI_API_BASE" := base];
      assert updates["OPENAI_API_BASE"] == base;
      var st1 := SwitchEnvironment(st, updates);
      var apiBase := EnvGet(st1.env, "OPENAI_API_BASE");
      if Truthy(apiBase) then
        Attempt(Success(Handle(LmStudio, None, apiBase, Some("lm-studio"), None, None)), st1)
      else
        Attempt(Failure(MissingCredential("LM Studio API base not set in .env file")), st1)
  }

  /** The constructor registered for a provider kind. */
  function CreateWith(kind: ProviderKind, model: string, st: EnvState): (r: Attempt)
    ensures r.result.Success? ==> r.result.value.provider == kind
  {
    match kind
    case OpenAi => CreateOpenAi(model, st)
    case Groq => CreateGroq(model, st)
    case Ollama => CreateOllama(model, st)
    case Anthropic => CreateAnthropic(model, st)
    case LmStudio => CreateLmStudio(model, st)
    case Xai => CreateXai(model, st)
    case Gemini => CreateGemini(model, st)
    case AzureOpenAi => CreateAzureOpenAi(model, st)
    case Bedrock => CreateBedrock(model, st)
  }

  /**
    Every constructor changes the two maps only through one switch: no
    snapshot key disappears, each changed snapshot entry now holds a value,
    and each changed environment variable now holds its snapshot value.
   */
  ghost predicate SwitchedFrom(st: EnvState, st1: EnvState)
  {
    && (forall k :: k in st.snapshot ==> k in st1.snapshot)
    && (forall k :: k in st1.snapshot && !(k in st.snapshot && st1.snapshot[k] == st.snapshot[k]) ==> st1.snapshot[k].Some?)
    && (forall k :: SameAt(st1.env, st.env, k) || (k in st1.env && k in st1.snapshot && st1.snapshot[k] == Some(st1.env[k])))
  }

  lemma SwitchIsSwitchedFrom(st: EnvState, updates: map<string, Option<string>>)
    ensures SwitchedFrom(st, SwitchEnvironment(st, updates))
  {
  }

  lemma CreateWithSwitches(kind: ProviderKind, model: string, st: EnvState)
    ensures SwitchedFrom(st, CreateWith(kind, model, st).after)
  {
    if kind.OpenAi? || kind.Groq? || kind.Ollama? || kind.Anthropic? || kind.LmStudio? {
      LocalProvidersSwitch(kind, model, st);
    } else {
      HostedProvidersSwitch(kind, model, st);
    }
  }

  lemma LocalProvidersSwitch(kind: ProviderKind, model: string, st: EnvState)
    requires kind.OpenAi? || kind.Groq? || kind.Ollama? || kind.Anthropic? || kind.LmStudio?
    ensures SwitchedFrom(st, CreateWith(kind, model, st).after)
  {
    var a := CreateWith(kind, model, st);
    if a.after != st {
      match kind
      case OpenAi =>
        SwitchIsSwitchedFrom(st, map["OPENAI_API_KEY" := SnapshotGet(st, "OPENAI_API_KEY"), "OPENAI_API_BASE" := SnapshotGet(st, "OPENAI_API_BASE")]);
      case Groq =>
        SwitchIsSwitchedFrom(st, map["GROQ_API_KEY" := SnapshotGet(st, "GROQ_API_KEY")]);
      case Ollama =>
        SwitchIsSwitchedFrom(st, map["OPENAI_API_KEY" := Some("ollama"), "OPENAI_API_BASE" := SnapshotGet(st, "OLLAMA_HOST")]);
      case Anthropic =>
        SwitchIsSwitchedFrom(st, map["ANTHROPIC_API_KEY" := SnapshotGet(st, "ANTHROPIC_API_KEY")]);
      case LmStudio =>
        SwitchIsSwitchedFrom(st, map["OPENAI_API_KEY" := Some("lm-studio"), "OPENAI_API_BASE" := SnapshotGet(st, "LMSTUDIO_API_BASE")]);
    }
  }

  lemma HostedProvidersSwitch(kind: ProviderKind, model: string, st: EnvState)
    requires kind.Xai? || kind.Gemini? || kind.AzureOpenAi? || kind.Bedrock?
    ensures SwitchedFrom(st, CreateWith(kind, model, st).after)
  {
    var a := CreateWith(kind, model, st);
    if a.after != st {
      match kind
      case Xai =>
        SwitchIsSwitchedFrom(st, map["OPENAI_API_KEY" := SnapshotGet(st, "XAI_API_KEY"), "OPENAI_API_BASE" := Some(XaiHost)]);
      case Gemini =>
        SwitchIsSwitchedFrom(st, map["GEMINI_API_KEY" := SnapshotGet(st, "GEMINI_API_KEY")]);
      case AzureOpenAi =>
        SwitchIsSwitchedFrom(st, map[
          "AZURE_OPENAI_API_KEY" := SnapshotGet(st, "AZURE_OPENAI_API_KEY"),
          "AZURE_OPENAI_ENDPOINT" := SnapshotGet(st, "AZURE_OPENAI_ENDPOINT"),
          "AZURE_OPENAI_DEPLOYMENT_NAME" := Some(AzureDeployment(model, st)),
          "AZURE_OPENAI_API_VERSION" := SnapshotGet(st, "AZURE_OPENAI_API_VERSION")]);
      case Bedrock =>
        SwitchIsSwitchedFrom(st, map[
          "AWS_REGION" := SnapshotGet(st, "AWS_REGION"),
          "AWS_ACCESS_KEY_ID" := SnapshotGet(st, "AWS_ACCESS_KEY_ID"),
          "AWS_SECRET_ACCESS_KEY" := SnapshotGet(st, "AWS_SECRET_ACCESS_KEY"),
          "AWS_SESSION_TOKEN" := SnapshotGet(st, "AWS_SESSION_TOKEN")]);
    }
  }

  /** What `create_llm` does once a constructor has run: restore only after a success. */
  function Finish(a: Attempt): (r: Attempt)
    ensures r.result == a.result
    ensures r.result.Success? ==> MirrorsSnapshot(r.after)
    ensures r.result.Failure? ==> r.after == a.after
  {
    if a.result.Success? then Attempt(a.result, RestoreEnvironment(a.after)) else a
  }

  /**
    `create_llm`: parse the selector, find the provider, build, and restore
    the environment from the snapshot only when the build succeeded.
   */
  function CreateLlm(selector: string, st: EnvState, cfg: Config): (r: Attempt)
    ensures !Contains(selector, ": ") ==> r == Attempt(Failure(MalformedSelector), st)
    ensures r.result.Success? ==> MirrorsSnapshot(r.after)
    ensures r.result.Failure? && r.result.error.UnknownProvider? ==> r.after == st
    ensures forall k :: k in st.snapshot ==> k in r.after.snapshot
    ensures forall k :: k !in r.after.snapshot ==> SameAt(r.after.env, st.env, k)
  {
    match ParseSelector(selector)
    case Failure(e) => Attempt(Failure(e), st)
    case Success((provider, model)) =>
      match FindProvider(cfg, provider)
      case None => Attempt(Failure(UnknownProvider(provider)), st)
      case Some(kind) =>
        CreateWithSwitches(kind, model, st);
        Finish(CreateWith(kind, model, st))
  }

  /** A selector naming a configured provider goes to that provider's constructor with the model it names. */
  lemma CreateLlmDispatch(provider: string, model: string, st: EnvState, cfg: Config, kind: ProviderKind)
    requires ':' !in provider
    requires FindProvider(cfg, provider) == Some(kind)
    ensures CreateLlm(Selector(provider, model), st, cfg) == Finish(CreateWith(kind, model, st))
  {
    SelectorRoundTrip(provider, model);
  }

  /** A provider name that is not configured is rejected and changes nothing. */
  lemma UnknownProviderRejected(provider: string, model: string, st: EnvState, cfg: Config)
    requires ':' !in provider
    requires forall i :: 0 <= i < |cfg| ==> cfg[i].name != provider
    ensures CreateLlm(Selector(provider, model), st, cfg) == Attempt(Failure(UnknownProvider(provider)), st)
  {
    SelectorRoundTrip(provider, model);
  }

  /** Every listed selector reaches the constructor of the provider it names, with the model it names. */
  lemma ListedSelectorDispatches(cfg: Config, i: nat, j: nat, st: EnvState)
    requires i < |cfg| && j < |cfg[i].models|
    requires forall k :: 0 <= k < |cfg| ==> ':' !in cfg[k].name
    requires forall k, l :: 0 <= k < l < |cfg| ==> cfg[k].name != cfg[l].name
    ensures CreateLlm(Selector(cfg[i].name, cfg[i].models[j]), st, cfg) ==
      Finish(CreateWith(cfg[i].kind, cfg[i].models[j], st))
  {
    var found := FindProvider(cfg, cfg[i].name);
    var k :| 0 <= k < |cfg| && cfg[k].name == cfg[i].name && cfg[k].kind == found.value;
    assert k == i;
    CreateLlmDispatch(cfg[i].name, cfg[i].models[j], st, cfg, cfg[i].kind);
  }

  /** In the built-in configuration each provider name reaches its own constructor. */
  lemma LlmConfigFinds(proxy: Option<string>, ollamaModels: Option<string>, i: nat)
    requires i < |ProviderNames|
    ensures FindProvider(LlmConfig(proxy, ollamaModels), ProviderNames[i]) == Some(ProviderKinds[i])
  {
    var cfg := LlmConfig(proxy, ollamaModels);
    ProviderNamesWellFormed();
    assert forall k, l :: 0 <= k < l < |cfg| ==> cfg[k].name != cfg[l].name;
    FindProviderDistinct(cfg, i);
  }

  /** With distinct names, looking up a provider's own name finds that provider. */
  lemma {:induction false} FindProviderDistinct(cfg: Config, i: nat)
    requires i < |cfg|
    requires forall k, l :: 0 <= k < l < |cfg| ==> cfg[k].name != cfg[l].name
    ensures FindProvider(cfg, cfg[i].name) == Some(cfg[i].kind)
    decreases i
  {
    if i > 0 {
      assert cfg[0].name != cfg[i].name;
      assert cfg[1..][i - 1] == cfg[i];
      FindProviderDistinct(cfg[1..], i - 1);
    }
  }

  /**
    The constructor-level view of the Ollama leak: once an Ollama build has
    switched and restored, the OpenAI constructor finds `"ollama"` as its key
    and the Ollama host as its base.
   */
  lemma OllamaLeaksIntoOpenAi(m1: string, m2: string, st: EnvState)
    requires CreateOllama(m1, st).result.Success?
    ensures var st1 := RestoreEnvironment(CreateOllama(m1, st).after);
      && EnvGet(st1.env, "OPENAI_API_KEY") == Some("ollama")
      && CreateOpenAi(m2, st1).result.Success?
      && CreateOpenAi(m2, st1).result.value.baseUrl == SnapshotGet(st, "OLLAMA_HOST")
  {
    var a := CreateOllama(m1, st);
    var st1 := RestoreEnvironment(a.after);
    assert SnapshotGet(st1, "OPENAI_API_KEY") == Some("ollama");
    assert SnapshotGet(st1, "OPENAI_API_BASE") == SnapshotGet(st, "OLLAMA_HOST");
  }

  /**
    After a successful Ollama build the snapshot holds `"ollama"` as the
    OpenAI key and the Ollama host as the OpenAI base, so the next OpenAI
    build succeeds and points at the Ollama host.
   */
  lemma OllamaThenOpenAi(ollama: string, openAi: string, m1: string, m2: string, st: EnvState, cfg: Config)
    requires ':' !in ollama && ':' !in openAi
    requires FindProvider(cfg, ollama) == Some(Ollama) && FindProvider(cfg, openAi) == Some(OpenAi)
    requires CreateLlm(Selector(ollama, m1), st, cfg).result.Success?
    ensures var st1 := CreateLlm(Selector(ollama, m1), st, cfg).after;
      var second := CreateLlm(Selector(openAi, m2), st1, cfg);
      && EnvGet(st1.env, "OPENAI_API_KEY") == Some("ollama")
      && second.result.Success?
      && second.result.value.baseUrl == SnapshotGet(st, "OLLAMA_HOST")
  {
    CreateLlmDispatch(ollama, m1, st, cfg, Ollama);
    var a := CreateOllama(m1, st);
    assert CreateWith(Ollama, m1, st) == a;
    var st1 := RestoreEnvironment(a.after);
    assert CreateLlm(Selector(ollama, m1), st, cfg).after == st1;
    CreateLlmDispatch(openAi, m2, st1, cfg, OpenAi);
    var b := CreateOpenAi(m2, st1);
    assert CreateWith(OpenAi, m2, st1) == b;
    OllamaLeaksIntoOpenAi(m1, m2, st);
    assert CreateLlm(Selector(openAi, m2), st1, cfg).result == b.result;
  }
}
