/** The planning-only agent of `planner.py`: choosing the chat provider
    from the arguments, the environment and the keys, reading API keys
    from a `.env` file, the prompt and request payload it sends, how the
    Anthropic request splits the messages, and planning a batch of tasks.
    The HTTP calls themselves are left to the caller: `generatePlan`
    stands for the configured client's `generate_plan`. */
module Planner {
  import opened Wrappers
  import opened Text

  const VoyageDefaultModel: string := "voyage-code-2"
  const OpenaiDefaultModel: string := "gpt-4o-mini"
  const AnthropicDefaultModel: string := "claude-3-5-sonnet-20240620"

  /** A goal to plan but not execute. */
  datatype CompoundTask = CompoundTask(name: string, objective: string, context: string, deliverable: string)

  /** The plan produced for a task. */
  datatype PlanResult = PlanResult(task: CompoundTask, planMarkdown: string)

  const VoyageVar: string := "VOYAGE_API_KEY"
  const OpenaiVar: string := "OPENAI_API_KEY"
  const AnthropicVar: string := "ANTHROPIC_API_KEY"

  /** The process environment. */
  type Env = map<string, string>

  /** `os.getenv(name)` */
  function Getenv(env: Env, name: string): (r: Option<string>)
    ensures r.Some? <==> name in env
  {
    if name in env then Some(env[name]) else None
  }

  // ---------------------------------------------------------------------
  // PlanningClient.__init__: provider resolution
  // ---------------------------------------------------------------------

  /** `(provider or PLANNER_PROVIDER or LLM_PROVIDER or "").strip().lower()` */
  function RequestedProvider(provider: Option<string>, env: Env): string {
    var chosen := OrElse(OrElse(provider, Getenv(env, "PLANNER_PROVIDER")), Getenv(env, "LLM_PROVIDER"));
    Lower(Strip(chosen.GetOr("")))
  }

  /** The provider after the key fallback: an empty request picks the first
      provider with a key, OpenAI before Anthropic before Voyage. */
  function ResolvedProvider(requested: string, voyageKey: Option<string>, openaiKey: Option<string>,
                            anthropicKey: Option<string>): (r: string)
    ensures requested != "" ==> r == requested
    ensures r == "" <==> requested == "" && Falsy(openaiKey) && Falsy(anthropicKey) && Falsy(voyageKey)
  {
    if requested != "" then requested
    else if !Falsy(openaiKey) then "openai"
    else if !Falsy(anthropicKey) then "anthropic"
    else if !Falsy(voyageKey) then "voyage"
    else ""
  }

  /** The provider `__init__` settles on. */
  function Chosen(provider: Option<string>, env: Env, voyageKey: Option<string>, openaiKey: Option<string>,
                  anthropicKey: Option<string>): string
  {
    ResolvedProvider(RequestedProvider(provider, env), voyageKey, openaiKey, anthropicKey)
  }

  const OpenaiKeyMissing: string := "Set OPENAI_API_KEY to use the OpenAI planner provider."
  const AnthropicKeyMissing: string := "Set ANTHROPIC_API_KEY to use the Anthropic planner provider."
  const VoyageUnsupported: string :=
    "Voyage AI does not provide chat completions; set PLANNER_PROVIDER=openai "
    + "or anthropic and provide the corresponding API key."
  const ProviderUnknown: string :=
    "Specify PLANNER_PROVIDER as 'openai' or 'anthropic' and provide the matching API key."

  /** The `ValueError` message `__init__` raises for a resolved provider,
      if any. */
  function InitError(provider: string, openaiKey: Option<string>, anthropicKey: Option<string>): Option<string> {
    if provider == "openai" then (if Falsy(openaiKey) then Some(OpenaiKeyMissing) else None)
    else if provider == "anthropic" then (if Falsy(anthropicKey) then Some(AnthropicKeyMissing) else None)
    else if provider == "voyage" then Some(VoyageUnsupported)
    else Some(ProviderUnknown)
  }

  /** Only OpenAI with an OpenAI key and Anthropic with an Anthropic key
      succeed; Voyage and every other name raise. */
  lemma InitSucceeds(provider: string, openaiKey: Option<string>, anthropicKey: Option<string>)
    ensures InitError(provider, openaiKey, anthropicKey).None? <==>
      (provider == "openai" && !Falsy(openaiKey)) || (provider == "anthropic" && !Falsy(anthropicKey))
    ensures provider == "voyage" ==> InitError(provider, openaiKey, anthropicKey) == Some(VoyageUnsupported)
  {
  }

  /** An explicit provider wins over the environment, which wins over the
      keys; with none of them set the keys decide. */
  lemma ProviderPrecedence(provider: Option<string>, env: Env, voyageKey: Option<string>,
                           openaiKey: Option<string>, anthropicKey: Option<string>)
    ensures !Falsy(provider) ==> RequestedProvider(provider, env) == Lower(Strip(provider.value))
    ensures Falsy(provider) && !Falsy(Getenv(env, "PLANNER_PROVIDER")) ==>
      RequestedProvider(provider, env) == Lower(Strip(env["PLANNER_PROVIDER"]))
    ensures Falsy(provider) && Falsy(Getenv(env, "PLANNER_PROVIDER")) && !Falsy(Getenv(env, "LLM_PROVIDER")) ==>
      RequestedProvider(provider, env) == Lower(Strip(env["LLM_PROVIDER"]))
    ensures Falsy(provider) && Falsy(Getenv(env, "PLANNER_PROVIDER")) && Falsy(Getenv(env, "LLM_PROVIDER")) ==>
      ResolvedProvider(RequestedProvider(provider, env), voyageKey, openaiKey, anthropicKey)
      == (if !Falsy(openaiKey) then "openai" else if !Falsy(anthropicKey) then "anthropic"
          else if !Falsy(voyageKey) then "voyage" else "")
  {
    if Falsy(provider) && Falsy(Getenv(env, "PLANNER_PROVIDER")) && Falsy(Getenv(env, "LLM_PROVIDER")) {
      var chosen := OrElse(OrElse(provider, Getenv(env, "PLANNER_PROVIDER")), Getenv(env, "LLM_PROVIDER"));
      assert chosen.GetOr("") == "";
    }
  }

  /** A request made only of whitespace counts as no request. */
  lemma BlankProviderFallsBack(provider: string, env: Env, voyageKey: Option<string>,
                               openaiKey: Option<string>, anthropicKey: Option<string>)
    requires provider != "" && AllSpace(provider)
    ensures ResolvedProvider(RequestedProvider(Some(provider), env), voyageKey, openaiKey, anthropicKey)
         == ResolvedProvider("", voyageKey, openaiKey, anthropicKey)
  {
    assert Strip(provider) == "";
  }

  /** The client after a successful `__init__`. */
  class PlanningClient {
    var provider: string
    var openaiKey: Option<string>
    var openaiModel: Option<string>
    var anthropicKey: Option<string>
    var anthropicModel: Option<string>
    var voyageKey: Option<string>
    var voyageModel: Option<string>

    /** Only the chosen provider's key and model are set, and its key is
        not empty. */
    predicate Valid()
      reads this
    {
      (provider == "openai" && !Falsy(openaiKey) && openaiModel.Some?
       && anthropicKey.None? && anthropicModel.None? && voyageKey.None? && voyageModel.None?)
      || (provider == "anthropic" && !Falsy(anthropicKey) && anthropicModel.Some?
       && openaiKey.None? && openaiModel.None? && voyageKey.None? && voyageModel.None?)
    }

    constructor OpenAI(key: Option<string>, model: string)
      requires !Falsy(key)
      ensures Valid() && provider == "openai" && openaiKey == key && openaiModel == Some(model)
    {
      provider := "openai";
      openaiKey := key;
      openaiModel := Some(model);
      anthropicKey := None;
      anthropicModel := None;
      voyageKey := None;
      voyageModel := None;
    }

    constructor Anthropic(key: Option<string>, model: string)
      requires !Falsy(key)
      ensures Valid() && provider == "anthropic" && anthropicKey == key && anthropicModel == Some(model)
    {
      provider := "anthropic";
      anthropicKey := key;
      anthropicModel := Some(model);
      openaiKey := None;
      openaiModel := None;
      voyageKey := None;
      voyageModel := None;
    }

    /** The request body `_call_anthropic` posts: the last system message
        becomes `system` (left out when empty), every other message's
        content is joined into one user message. */
    method AnthropicRequest(payload: Payload) returns (body: AnthropicBody)
      requires Valid() && provider == "anthropic"
      ensures body.model == anthropicModel.value && body.maxTokens == 800
      ensures body.temperature == payload.temperature
      ensures body.messages == [Message("user", Join("\n\n", UserChunks(payload.messages)))]
      ensures body.system.Some? <==> SystemPrompt(payload.messages) != ""
      ensures body.system.Some? ==> body.system.value == SystemPrompt(payload.messages)
    {
      var systemPrompt := "";
      var userChunks: seq<string> := [];
      for i := 0 to |payload.messages|
        invariant systemPrompt == SystemPrompt(payload.messages[..i])
        invariant userChunks == UserChunks(payload.messages[..i])
      {
        var msg := payload.messages[i];
        assert payload.messages[..i + 1][..i] == payload.messages[..i];
        if msg.role == "system" {
          systemPrompt := msg.content;
        } else {
          userChunks := userChunks + [msg.content];
        }
      }
      assert payload.messages[..|payload.messages|] == payload.messages;
      var system := if systemPrompt != "" then Some(systemPrompt) else None;
      body := AnthropicBody(anthropicModel.value, 800, payload.temperature,
                            [Message("user", Join("\n\n", userChunks))], system);
    }
  }

  /** `PlanningClient(...)`: the client, or the `ValueError` message. */
  method NewPlanningClient(voyageKey: Option<string>, openaiKey: Option<string>, anthropicKey: Option<string>,
                           voyageModel: string, openaiModel: string, anthropicModel: string,
                           provider: Option<string>, env: Env)
    returns (r: Result<PlanningClient>)
    ensures r.Ok? ==> fresh(r.value) && r.value.Valid()
    ensures r.Ok? && r.value.provider == "openai" ==>
      r.value.openaiKey == openaiKey && r.value.openaiModel == Some(openaiModel)
    ensures r.Ok? && r.value.provider == "anthropic" ==>
      r.value.anthropicKey == anthropicKey && r.value.anthropicModel == Some(anthropicModel)
    ensures r.Ok? ==> r.value.provider == Chosen(provider, env, voyageKey, openaiKey, anthropicKey)
    ensures r.Err? <==> InitError(Chosen(provider, env, voyageKey, openaiKey, anthropicKey), openaiKey, anthropicKey).Some?
    ensures r.Err? ==> Some(r.error) == InitError(Chosen(provider, env, voyageKey, openaiKey, anthropicKey), openaiKey, anthropicKey)
  {
    var requested := RequestedProvider(provider, env);
    if requested == "" {
      if !Falsy(openaiKey) {
        requested := "openai";
      } else if !Falsy(anthropicKey) {
        requested := "anthropic";
      } else if !Falsy(voyageKey) {
        requested := "voyage";
      }
    }
    if requested == "openai" {
      if Falsy(openaiKey) {
        return Err(OpenaiKeyMissing);
      }
      var client := new PlanningClient.OpenAI(openaiKey, openaiModel);
      return Ok(client);
    } else if requested == "anthropic" {
      if Falsy(anthropicKey) {
        return Err(AnthropicKeyMissing);
      }
      var client := new PlanningClient.Anthropic(anthropicKey, anthropicModel);
      return Ok(client);
    } else if requested == "voyage" {
      return Err(VoyageUnsupported);
    } else {
      return Err(ProviderUnknown);
    }
  }

  // ---------------------------------------------------------------------
  // _build_payload and the Anthropic message split
  // ---------------------------------------------------------------------

  datatype Message = Message(role: string, content: string)

  datatype Payload = Payload(messages: seq<Message>, temperature: real)

  /** The JSON body posted to the Anthropic messages endpoint. */
  datatype AnthropicBody = AnthropicBody(
    model: string,
    maxTokens: nat,
    temperature: real,
    messages: seq<Message>,
    system: Option<string>)

  const PlanningInstructions: string :=
    "You are a planning specialist. Your job is to design "
    + "step-by-step execution plans and describe the intended end "
    + "result. DO NOT execute the plan. Always stop after outlining "
    + "the plan and the expected outcome."

  /** `_build_payload(prompt)`: the planning instructions as the system
      message, then the prompt as the only user message. */
  function BuildPayload(prompt: string): (p: Payload)
    ensures |p.messages| == 2 && p.messages[1] == Message("user", prompt)
    ensures p.messages[0].role == "system"
  {
    Payload([Message("system", PlanningInstructions), Message("user", prompt)], 0.1)
  }

  /** The content of the last system message, or `""`. */
  function SystemPrompt(msgs: seq<Message>): string {
    if msgs == [] then ""
    else if msgs[|msgs| - 1].role == "system" then msgs[|msgs| - 1].content
    else SystemPrompt(msgs[..|msgs| - 1])
  }

  /** The contents of the other messages, in order. */
  function UserChunks(msgs: seq<Message>): (r: seq<string>)
    ensures |r| <= |msgs|
  {
    if msgs == [] then []
    else
      var last := msgs[|msgs| - 1];
      UserChunks(msgs[..|msgs| - 1]) + (if last.role == "system" then [] else [last.content])
  }

  /** The system prompt is the content of the last system message; without
      one it is empty. */
  lemma {:induction false} SystemPromptIsLast(msgs: seq<Message>)
    ensures (forall j :: 0 <= j < |msgs| ==> msgs[j].role != "system") ==> SystemPrompt(msgs) == ""
    ensures forall i :: (0 <= i < |msgs| && msgs[i].role == "system"
      && (forall j :: i < j < |msgs| ==> msgs[j].role != "system")) ==> SystemPrompt(msgs) == msgs[i].content
  {
    if msgs != [] {
      var init := msgs[..|msgs| - 1];
      SystemPromptIsLast(init);
      assert forall j :: 0 <= j < |init| ==> init[j] == msgs[j];
    }
  }

  /** The user chunks are exactly the non-system contents, in order. */
  lemma {:induction false} UserChunksCount(msgs: seq<Message>)
    ensures (forall j :: 0 <= j < |msgs| ==> msgs[j].role != "system") ==>
      UserChunks(msgs) == seq(|msgs|, j requires 0 <= j < |msgs| => msgs[j].content)
  {
    if msgs != [] {
      var init := msgs[..|msgs| - 1];
      UserChunksCount(init);
      assert forall j :: 0 <= j < |init| ==> init[j] == msgs[j];
    }
  }

  /** A planning payload reaches Anthropic with the planning instructions as
      `system` and the prompt, unchanged, as the one user message. */
  lemma AnthropicPlanningRequest(prompt: string)
    ensures SystemPrompt(BuildPayload(prompt).messages) == PlanningInstructions
    ensures UserChunks(BuildPayload(prompt).messages) == [prompt]
    ensures Join("\n\n", UserChunks(BuildPayload(prompt).messages)) == prompt
  {
    var msgs := BuildPayload(prompt).messages;
    assert msgs[..1] == [Message("system", PlanningInstructions)];
    assert msgs[..1][..0] == [];
  }

  // ---------------------------------------------------------------------
  // CompoundMultiTaskAgent
  // ---------------------------------------------------------------------

  /** The lines of `_build_prompt(task)` after dedenting. */
  function PromptLines(task: CompoundTask): seq<string> {
    ["Goal: " + task.objective,
     "Task Name: " + task.name,
     "Context: " + task.context,
     "Required Deliverable: " + task.deliverable]
    + InstructionLines
  }

  /** The fixed instruction lines of the prompt. */
  const InstructionLines: seq<string> :=
    ["",
     "Instructions:",
     "- Produce a numbered execution plan with 4-6 steps.",
     "- After the steps, add a section titled \"EXPECTED RESULT\" describing the",
     "  final artifact or state as if it has been achieved.",
     "- Do not actually execute the plan; only describe it.",
     "- Keep the response in Markdown."]

  /** `_build_prompt(task)` */
  function BuildPrompt(task: CompoundTask): string {
    Join("\n", PromptLines(task))
  }

  lemma LabelsFree()
    ensures Free("Goal: ", '\n') && Free("Task Name: ", '\n')
    ensures Free("Context: ", '\n') && Free("Required Deliverable: ", '\n')
  {
  }

  /** Single-line fields each sit on a line of their own at the head of
      the prompt, after their label, and the instructions follow. */
  lemma PromptFields(task: CompoundTask)
    requires Free(task.name, '\n') && Free(task.objective, '\n')
    requires Free(task.context, '\n') && Free(task.deliverable, '\n')
    ensures Split(BuildPrompt(task), '\n')
         == ["Goal: " + task.objective, "Task Name: " + task.name,
             "Context: " + task.context, "Required Deliverable: " + task.deliverable]
            + Split(Join("\n", InstructionLines), '\n')
  {
    LabelsFree();
    FreeConcat("Goal: ", task.objective, '\n');
    FreeConcat("Task Name: ", task.name, '\n');
    FreeConcat("Context: ", task.context, '\n');
    FreeConcat("Required Deliverable: ", task.deliverable, '\n');
    var fields := ["Goal: " + task.objective, "Task Name: " + task.name,
                   "Context: " + task.context, "Required Deliverable: " + task.deliverable];
    assert PromptLines(task) == fields + InstructionLines;
    JoinConcat("\n", fields, InstructionLines);
    SplitJoinedPrefix(fields, '\n', Join("\n", InstructionLines));
  }

  /** `CompoundMultiTaskAgent.plan(tasks)`: one result per task, in order,
      each holding the plan generated for that task's prompt. */
  method Plan(tasks: seq<CompoundTask>, generatePlan: string -> string) returns (plans: seq<PlanResult>)
    ensures |plans| == |tasks|
    ensures forall i :: 0 <= i < |tasks| ==>
      plans[i].task == tasks[i] && plans[i].planMarkdown == generatePlan(BuildPrompt(tasks[i]))
  {
    plans := [];
    for i := 0 to |tasks|
      invariant |plans| == i
      invariant forall p :: 0 <= p < i ==>
        plans[p].task == tasks[p] && plans[p].planMarkdown == generatePlan(BuildPrompt(tasks[p]))
    {
      var task := tasks[i];
      var prompt := BuildPrompt(task);
      var planText := generatePlan(prompt);
      plans := plans + [PlanResult(task, planText)];
    }
  }

  // ---------------------------------------------------------------------
  // _load_env_keys
  // ---------------------------------------------------------------------

  /** A `.env` line as `_load_env_keys` reads it: `None` for blank lines,
      comments and lines without `=`; otherwise the stripped name before
      the first `=` and the value after it, stripped of whitespace, then
      double quotes, then single quotes. */
  function ParseEnvLine(line: string): (r: Option<(string, string)>)
    ensures AllSpace(line) ==> r.None?
    ensures r.Some? ==> Contains(Strip(line), "=") && !StartsWith(Strip(line), "#") && Trimmed(r.value.0)
    ensures r.Some? ==> var v := r.value.1; v == [] || (v[0] != '\'' && v[|v| - 1] != '\'')
  {
    var stripped := Strip(line);
    if stripped == [] || StartsWith(stripped, "#") || !Contains(stripped, "=") then None
    else
      var i := Find(stripped, "=");
      Some((Strip(stripped[..i]), StripChar(StripChar(Strip(stripped[i + 1..]), '"'), '\'')))
  }

  lemma StripTrimmed(s: string)
    requires Trimmed(s)
    ensures Strip(s) == s
  {
  }

  lemma StripCharAbsent(s: string, c: char)
    requires s == [] || (s[0] != c && s[|s| - 1] != c)
    ensures StripChar(s, c) == s
  {
  }

  /** The first `=` of `name=value` is the one after a name without `=`. */
  lemma FindAfterName(name: string, value: string)
    requires Free(name, '=')
    ensures Find(name + "=" + value, "=") == |name|
  {
    var line := name + "=" + value;
    assert line[|name|..|name| + 1] == "=";
    assert OccursAt(line, "=", |name|);
    forall i | 0 <= i < |name|
      ensures !OccursAt(line, "=", i)
    {
      assert line[i] == name[i];
    }
  }

  /** The pieces of `a + [x] + b`. */
  lemma Pieces<T>(a: seq<T>, x: T, b: seq<T>)
    ensures var w := a + [x] + b;
      |w| == |a| + 1 + |b| && w[..|a|] == a && w[|a|] == x && w[|a| + 1..] == b
      && (a != [] ==> w[0] == a[0]) && (b != [] ==> w[|w| - 1] == b[|b| - 1])
      && (b == [] ==> w[|w| - 1] == x)
  {
    var w := a + [x] + b;
    assert w[..|a|] == a;
    assert w[|a| + 1..] == b;
  }

  /** Writing `name=value` and reading it back gives the pair, for a name
      that is trimmed, not a comment and without `=`, and a value that is
      trimmed and not wrapped in quotes. */
  lemma EnvLineRoundTrip(name: string, value: string)
    requires name != [] && Trimmed(name) && name[0] != '#' && Free(name, '=')
    requires Trimmed(value)
    requires value == [] || (value[0] != '"' && value[|value| - 1] != '"' && value[0] != '\'' && value[|value| - 1] != '\'')
    ensures ParseEnvLine(name + "=" + value) == Some((name, value))
  {
    var line := name + ['='] + value;
    Pieces(name, '=', value);
    assert Trimmed(line);
    StripTrimmed(line);
    FindAfterName(name, value);
    assert !StartsWith(line, "#");
    StripTrimmed(name);
    StripTrimmed(value);
    StripCharAbsent(value, '"');
    StripCharAbsent(value, '\'');
  }

  /** The three keys being collected and the environment they are written to. */
  datatype EnvKeys = EnvKeys(voyage: Option<string>, openai: Option<string>, anthropic: Option<string>, env: Env)

  /** A non-empty value offered for `name` fills the key it names when
      that key is still unset or empty, and is exported to the environment. */
  function Offer(k: EnvKeys, name: string, val: string): EnvKeys {
    var k1 := if name == VoyageVar && Falsy(k.voyage) && val != ""
              then k.(voyage := Some(val), env := k.env[name := val]) else k;
    var k2 := if name == OpenaiVar && Falsy(k1.openai) && val != ""
              then k1.(openai := Some(val), env := k1.env[name := val]) else k1;
    if name == AnthropicVar && Falsy(k2.anthropic) && val != ""
    then k2.(anthropic := Some(val), env := k2.env[name := val]) else k2
  }

  /** One line's effect. */
  function ApplyLine(k: EnvKeys, line: string): EnvKeys {
    match ParseEnvLine(line)
    case None => k
    case Some((name, val)) => Offer(k, name, val)
  }

  /** The keys after reading the given lines in order. */
  function ApplyLines(k: EnvKeys, lines: seq<string>): EnvKeys {
    if lines == [] then k else ApplyLine(ApplyLines(k, lines[..|lines| - 1]), lines[|lines| - 1])
  }

  lemma ApplyLinesStep(k: EnvKeys, lines: seq<string>, i: nat)
    requires i < |lines|
    ensures ApplyLines(k, lines[..i + 1]) == ApplyLine(ApplyLines(k, lines[..i]), lines[i])
  {
    assert lines[..i + 1][..i] == lines[..i];
  }

  /** The keys from the environment alone: each key is its variable's
      value, and the environment is left as it is. */
  function KeysFromEnv(env: Env): (r: EnvKeys)
    ensures r.env == env && forall name :: IsKeyVar(name) ==> KeyOf(r, name) == Getenv(env, name)
  {
    KeyVarsDistinct();
    EnvKeys(Getenv(env, VoyageVar), Getenv(env, OpenaiVar), Getenv(env, AnthropicVar), env)
  }

  /** `_load_env_keys()`: `envFile` is the `.env` file's text, or `None`
      when there is no such file. Also returns the updated environment. */
  method LoadEnvKeys(env: Env, envFile: Option<string>)
    returns (voyageKey: Option<string>, openaiKey: Option<string>, anthropicKey: Option<string>, newEnv: Env)
    ensures var k := ApplyLines(KeysFromEnv(env), match envFile case Some(text) => SplitLines(text) case None => []);
      voyageKey == k.voyage && openaiKey == k.openai && anthropicKey == k.anthropic && newEnv == k.env
  {
    voyageKey := Getenv(env, VoyageVar);
    openaiKey := Getenv(env, OpenaiVar);
    anthropicKey := Getenv(env, AnthropicVar);
    newEnv := env;
    if envFile.Some? {
      var lines := SplitLines(envFile.value);
      for i := 0 to |lines|
        invariant EnvKeys(voyageKey, openaiKey, anthropicKey, newEnv) == ApplyLines(KeysFromEnv(env), lines[..i])
      {
        ApplyLinesStep(KeysFromEnv(env), lines, i);
        var parsed := ParseEnvLine(lines[i]);
        if parsed.None? {
          continue;
        }
        var (normalized, val) := parsed.value;
        voyageKey, openaiKey, anthropicKey, newEnv := OfferKeys(voyageKey, openaiKey, anthropicKey, newEnv, normalized, val);
      }
      assert lines[..|lines|] == lines;
    }
  }

  /** The three tests of the loop body of `_load_env_keys` for one parsed line. */
  method OfferKeys(voyageKey0: Option<string>, openaiKey0: Option<string>, anthropicKey0: Option<string>, env0: Env,
                   normalized: string, val: string)
    returns (voyageKey: Option<string>, openaiKey: Option<string>, anthropicKey: Option<string>, newEnv: Env)
    ensures EnvKeys(voyageKey, openaiKey, anthropicKey, newEnv)
         == Offer(EnvKeys(voyageKey0, openaiKey0, anthropicKey0, env0), normalized, val)
  {
    voyageKey, openaiKey, anthropicKey, newEnv := voyageKey0, openaiKey0, anthropicKey0, env0;
    if normalized == VoyageVar && Falsy(voyageKey) && val != "" {
      voyageKey := Some(val);
      newEnv := newEnv[VoyageVar := val];
    }
    if normalized == OpenaiVar && Falsy(openaiKey) && val != "" {
      openaiKey := Some(val);
      newEnv := newEnv[OpenaiVar := val];
    }
    if normalized == AnthropicVar && Falsy(anthropicKey) && val != "" {
      anthropicKey := Some(val);
      newEnv := newEnv[AnthropicVar := val];
    }
  }

  /** The first non-empty value the lines give for `name`, if any. */
  function FirstFileValue(lines: seq<string>, name: string): (r: Option<string>)
    ensures r.Some? ==> r.value != ""
  {
    if lines == [] then None
    else
      var before := FirstFileValue(lines[..|lines| - 1], name);
      if before.Some? then before
      else match ParseEnvLine(lines[|lines| - 1])
        case Some((n, v)) => if n == name && v != "" then Some(v) else None
        case None => None
  }

  predicate IsKeyVar(name: string) {
    name == VoyageVar || name == OpenaiVar || name == AnthropicVar
  }

  /** The three variable names differ. */
  lemma KeyVarsDistinct()
    ensures VoyageVar != OpenaiVar && VoyageVar != AnthropicVar && OpenaiVar != AnthropicVar
  {
    assert VoyageVar[0] != OpenaiVar[0] && VoyageVar[0] != AnthropicVar[0] && OpenaiVar[0] != AnthropicVar[0];
  }

  /** The key a name collects. */
  function KeyOf(k: EnvKeys, name: string): Option<string>
    requires IsKeyVar(name)
  {
    if name == VoyageVar then k.voyage else if name == OpenaiVar then k.openai else k.anthropic
  }

  /** One line changes a key only when it is unset or empty and the line
      gives its name a non-empty value; the environment follows the key. */
  lemma ApplyLineKey(k: EnvKeys, line: string, name: string)
    requires IsKeyVar(name)
    ensures var p := ParseEnvLine(line);
      KeyOf(ApplyLine(k, line), name)
      == (if Falsy(KeyOf(k, name)) && p.Some? && p.value.0 == name && p.value.1 != ""
          then Some(p.value.1) else KeyOf(k, name))
    ensures Getenv(k.env, name) == KeyOf(k, name) ==> Getenv(ApplyLine(k, line).env, name) == KeyOf(ApplyLine(k, line), name)
  {
    match ParseEnvLine(line)
    case None =>
    case Some((n, v)) => OfferKey(k, n, v, name);
  }

  /** What an offer does to one key. */
  lemma OfferKey(k: EnvKeys, n: string, v: string, name: string)
    requires IsKeyVar(name)
    ensures KeyOf(Offer(k, n, v), name) == (if Falsy(KeyOf(k, name)) && n == name && v != "" then Some(v) else KeyOf(k, name))
    ensures Getenv(k.env, name) == KeyOf(k, name) ==> Getenv(Offer(k, n, v).env, name) == KeyOf(Offer(k, n, v), name)
  {
    KeyVarsDistinct();
    if n != VoyageVar && n != OpenaiVar && n != AnthropicVar {
      assert Offer(k, n, v) == k;
    }
  }

  /** A variable set to a non-empty value in the environment keeps it; an
      unset or empty one takes the first non-empty value in the file, if
      any. Each collected key is also the environment's value for its
      name. */
  lemma {:induction false} EnvPrecedence(env: Env, lines: seq<string>, name: string)
    requires IsKeyVar(name)
    ensures var k := ApplyLines(KeysFromEnv(env), lines);
      KeyOf(k, name) == (if !Falsy(Getenv(env, name)) then Getenv(env, name)
                         else if FirstFileValue(lines, name).Some? then FirstFileValue(lines, name)
                         else Getenv(env, name))
      && Getenv(k.env, name) == KeyOf(k, name)
  {
    if lines != [] {
      var init := lines[..|lines| - 1];
      var last := lines[|lines| - 1];
      var before := ApplyLines(KeysFromEnv(env), init);
      EnvPrecedence(env, init, name);
      ApplyLineKey(before, last, name);
      assert ApplyLines(KeysFromEnv(env), lines) == ApplyLine(before, last);
    }
  }

  /** Variables other than the three keys are left as they were. */
  lemma {:induction false} OtherVariablesKept(env: Env, lines: seq<string>, other: string)
    requires !IsKeyVar(other)
    ensures Getenv(ApplyLines(KeysFromEnv(env), lines).env, other) == Getenv(env, other)
  {
    if lines != [] {
      var init := lines[..|lines| - 1];
      OtherVariablesKept(env, init, other);
      ApplyLineOther(ApplyLines(KeysFromEnv(env), init), lines[|lines| - 1], other);
    }
  }

  /** A line leaves every variable but the three keys alone. */
  lemma ApplyLineOther(k: EnvKeys, line: string, other: string)
    requires !IsKeyVar(other)
    ensures Getenv(ApplyLine(k, line).env, other) == Getenv(k.env, other)
  {
    var p := ParseEnvLine(line);
    if p.Some? {
      OfferOther(k, p.value.0, p.value.1, other);
    }
  }

  lemma OfferOther(k: EnvKeys, n: string, v: string, other: string)
    requires !IsKeyVar(other)
    ensures Getenv(Offer(k, n, v).env, other) == Getenv(k.env, other)
  {
    var k1 := if n == VoyageVar && Falsy(k.voyage) && v != ""
              then k.(voyage := Some(v), env := k.env[n := v]) else k;
    var k2 := if n == OpenaiVar && Falsy(k1.openai) && v != ""
              then k1.(openai := Some(v), env := k1.env[n := v]) else k1;
    assert Getenv(k1.env, other) == Getenv(k.env, other);
    assert Getenv(k2.env, other) == Getenv(k1.env, other);
  }
}
