/** The reasoning-summary generator (`mprg/generator.py`): the schema check
    an agent's JSON output must pass, the text that is embedded for a
    summary, the settings its constructor normalises, and the run counts
    of a task bundle. The LLM and embedding calls are left out; their
    outputs are inputs here. */
module Generator {
  import opened Wrappers
  import opened Text
  import opened Json
  import opened Collections

  /** `REASONING_KEYS` */
  const ReasoningKeys: seq<string> :=
    ["agent_role", "task_id", "final_answer", "plan_steps", "assumptions", "tools", "risks", "fallbacks"]

  /** The five list fields, in the order they are checked. */
  const ListFields: seq<string> := ["plan_steps", "assumptions", "tools", "risks", "fallbacks"]

  /** The roles of `AGENT_ROLES`, in order. */
  const AgentRoles: seq<string> := ["planner", "skeptic", "ops_reliability", "cost_optimizer", "alternative_strategy"]

  /** `ReasoningSummary` */
  datatype ReasoningSummary = ReasoningSummary(
    agentRole: string,
    taskId: string,
    finalAnswer: string,
    planSteps: seq<string>,
    assumptions: seq<string>,
    tools: seq<string>,
    risks: seq<string>,
    fallbacks: seq<string>)

  // ---------------------------------------------------------------------
  // validate_reasoning_summary
  // ---------------------------------------------------------------------

  /** `[k for k in xs if k not in s]` */
  function NotIn(xs: seq<string>, s: set<string>): (r: seq<string>)
    ensures forall k :: k in r <==> k in xs && k !in s
    ensures |r| <= |xs|
  {
    if xs == [] then []
    else NotIn(xs[..|xs| - 1], s) + (if xs[|xs| - 1] !in s then [xs[|xs| - 1]] else [])
  }

  /** `s.isdigit()` on ASCII text: non-empty and only digits. */
  predicate IsDigitStr(s: string) {
    s != [] && AllDigits(s)
  }

  /** The two-character prefixes `"1."` to `"9."`. */
  const NumberedPrefixes: set<string> := {"1.", "2.", "3.", "4.", "5.", "6.", "7.", "8.", "9."}

  const StepPrefixError := "plan_steps must not include numbering or 'Step' prefixes."
  const NumberingError := "plan_steps must not include numbering prefixes."

  /** The checks of one stripped, lower-cased plan step, in order. */
  function StepError(normalized: string): Option<string> {
    if StartsWith(normalized, "step ") || StartsWith(normalized, "step-")
       || StartsWith(normalized, "step:") || StartsWith(normalized, "step") then
      Some(StepPrefixError)
    else if IsDigitStr(Take(normalized, 3)) || IsDigitStr(Take(normalized, 2)) then Some(NumberingError)
    else if NumberedPrefix(Take(normalized, 2)) then Some(NumberingError)
    else None
  }

  /** Membership in `NumberedPrefixes`, character by character. */
  predicate NumberedPrefix(t: string) {
    |t| == 2 && '1' <= t[0] <= '9' && t[1] == '.'
  }

  lemma NumberedPrefixMembers(t: string)
    ensures t in NumberedPrefixes <==> NumberedPrefix(t)
  {
    if NumberedPrefix(t) {
      if t[0] == '1' { assert t == "1."; }
      else if t[0] == '2' { assert t == "2."; }
      else if t[0] == '3' { assert t == "3."; }
      else if t[0] == '4' { assert t == "4."; }
      else if t[0] == '5' { assert t == "5."; }
      else if t[0] == '6' { assert t == "6."; }
      else if t[0] == '7' { assert t == "7."; }
      else if t[0] == '8' { assert t == "8."; }
      else { assert t == "9."; }
    }
  }

  /** A step reads as numbered: it starts with `step`, with a digit that is
      its only character or is followed by another digit, or with a digit
      from 1 to 9 and a dot. */
  predicate Numbered(n: string) {
    StartsWith(n, "step")
    || (|n| >= 1 && IsDigit(n[0]) && (|n| == 1 || IsDigit(n[1])))
    || (|n| >= 2 && '1' <= n[0] <= '9' && n[1] == '.')
  }

  /** A step is rejected exactly when it reads as numbered; `step` prefixes
      get their own message. */
  lemma StepErrorSpec(n: string)
    ensures StepError(n).Some? <==> Numbered(n)
    ensures StartsWith(n, "step") ==> StepError(n) == Some(StepPrefixError)
    ensures StepError(n).Some? && !StartsWith(n, "step") ==> StepError(n) == Some(NumberingError)
  {
    var t2 := Take(n, 2);
    if |n| >= 2 {
      assert t2 == n[..2];
    }
    if StartsWith(n, "step ") || StartsWith(n, "step-") || StartsWith(n, "step:") {
      assert n[..4] == "step";
    }
  }

  /** `step.strip().lower()` */
  function NormalizeStep(step: string): string {
    Lower(Strip(step))
  }

  /** The step fails one of the checks. */
  predicate Rejected(step: string) {
    StepError(NormalizeStep(step)).Some?
  }

  /** The verdict on each plan step. */
  function StepErrors(steps: seq<string>): (r: seq<Option<string>>)
    ensures |r| == |steps| && forall i :: 0 <= i < |steps| ==> r[i] == StepError(NormalizeStep(steps[i]))
  {
    seq(|steps|, i requires 0 <= i < |steps| => StepError(NormalizeStep(steps[i])))
  }

  /** The first present value, scanning from the front. */
  function FirstSome<T>(xs: seq<Option<T>>): (r: Option<T>)
    ensures r.None? <==> forall i :: 0 <= i < |xs| ==> xs[i].None?
  {
    if xs == [] then None
    else if xs[0].Some? then xs[0]
    else
      assert forall i :: 1 <= i < |xs| ==> xs[1..][i - 1] == xs[i];
      FirstSome(xs[1..])
  }

  lemma {:induction false} FirstSomeAt<T>(xs: seq<Option<T>>, i: nat)
    requires i < |xs| && xs[i].Some? && forall j :: 0 <= j < i ==> xs[j].None?
    ensures FirstSome(xs) == xs[i]
  {
    if i > 0 {
      assert forall j :: 0 <= j < i - 1 ==> xs[1..][j] == xs[j + 1];
      FirstSomeAt(xs[1..], i - 1);
    }
  }

  /** The first error among the plan steps, checked in order. */
  function PlanStepsError(steps: seq<string>): (r: Option<string>)
    ensures r.None? <==> forall i :: 0 <= i < |steps| ==> !Rejected(steps[i])
  {
    FirstSome(StepErrors(steps))
  }

  /** The error reported is that of the first rejected step. */
  lemma PlanStepsFirst(steps: seq<string>, i: nat)
    requires i < |steps| && Rejected(steps[i]) && forall j :: 0 <= j < i ==> !Rejected(steps[j])
    ensures PlanStepsError(steps) == StepError(NormalizeStep(steps[i]))
  {
    FirstSomeAt(StepErrors(steps), i);
  }

  /** The first of `fields` whose value is not a list of strings. */
  function ListFieldsError(data: Json, fields: seq<string>): (r: Option<string>)
    requires data.JObj?
    ensures r.None? <==> forall i :: 0 <= i < |fields| ==> data.Get(fields[i]).GetOr(JNull).IsStrList()
    ensures r.Some? ==> exists i :: 0 <= i < |fields| && !data.Get(fields[i]).GetOr(JNull).IsStrList()
                          && r == Some(fields[i] + " must be a list of strings.")
  {
    if fields == [] then None
    else if !data.Get(fields[0]).GetOr(JNull).IsStrList() then Some(fields[0] + " must be a list of strings.")
    else
      var r := ListFieldsError(data, fields[1..]);
      assert forall i :: 1 <= i < |fields| ==> fields[1..][i - 1] == fields[i];
      r
  }

  /** `isinstance(v, str) and v.strip()` */
  predicate NonBlankStr(v: Json) {
    v.JStr? && Strip(v.s) != ""
  }

  /** `validate_reasoning_summary(data, task_id)`: `(True, None)` or
      `(False, message)`. */
  function ValidateReasoningSummary(data: Json, taskId: string): (r: (bool, Option<string>))
    ensures r.0 <==> r.1.None?
  {
    if !data.JObj? then (false, Some("Output is not a JSON object."))
    else if SetOf(data.keys) != SetOf(ReasoningKeys) then
      var missing := NotIn(ReasoningKeys, data.fields.Keys);
      var extra := NotIn(data.keys, SetOf(ReasoningKeys));
      if missing != [] then (false, Some("Missing keys: " + Join(", ", missing)))
      else (false, Some("Extra keys not allowed: " + Join(", ", extra)))
    else if !NonBlankStr(Field(data, "agent_role")) then
      (false, Some("agent_role must be a non-empty string."))
    else if Field(data, "task_id") != JStr(taskId) then
      (false, Some("task_id must match the requested task_id."))
    else if !NonBlankStr(Field(data, "final_answer")) then
      (false, Some("final_answer must be a non-empty string."))
    else match ListFieldsError(data, ListFields)
      case Some(m) => (false, Some(m))
      case None =>
        match PlanStepsError(Field(data, "plan_steps").Strings())
        case Some(m) => (false, Some(m))
        case None => (true, None)
  }

  /** The value stored under a key, or `null`. */
  function Field(data: Json, key: string): Json
    requires data.JObj?
  {
    data.Get(key).GetOr(JNull)
  }

  /** The five list fields hold lists of strings. */
  predicate ListsOk(data: Json)
    requires data.JObj?
  {
    Field(data, "plan_steps").IsStrList() && Field(data, "assumptions").IsStrList()
    && Field(data, "tools").IsStrList() && Field(data, "risks").IsStrList() && Field(data, "fallbacks").IsStrList()
  }

  /** What a conforming summary is: a dict with exactly the eight keys, a
      non-blank role and answer, the requested task id, five lists of
      strings, and no plan step that reads as numbered. */
  predicate Conforms(data: Json, taskId: string) {
    data.JObj?
    && SetOf(data.keys) == SetOf(ReasoningKeys)
    && NonBlankStr(Field(data, "agent_role"))
    && Field(data, "task_id") == JStr(taskId)
    && NonBlankStr(Field(data, "final_answer"))
    && ListsOk(data)
    && var steps := Field(data, "plan_steps").Strings();
       forall i :: 0 <= i < |steps| ==> !Numbered(NormalizeStep(steps[i]))
  }

  /** The validator accepts exactly the conforming summaries. */
  lemma ValidateAccepts(data: Json, taskId: string)
    ensures ValidateReasoningSummary(data, taskId).0 <==> Conforms(data, taskId)
  {
    if !data.JObj? || SetOf(data.keys) != SetOf(ReasoningKeys) {
      return;
    }
    if !NonBlankStr(Field(data, "agent_role")) || Field(data, "task_id") != JStr(taskId)
       || !NonBlankStr(Field(data, "final_answer")) {
      return;
    }
    ListFieldsCovers(data);
    if ListFieldsError(data, ListFields).Some? {
      return;
    }
    var steps := Field(data, "plan_steps").Strings();
    forall i | 0 <= i < |steps| ensures Rejected(steps[i]) <==> Numbered(NormalizeStep(steps[i])) {
      StepErrorSpec(NormalizeStep(steps[i]));
    }
    assert ValidateReasoningSummary(data, taskId).0 <==> PlanStepsError(steps).None?;
  }

  /** The list checks pass exactly when the five lists are lists of strings. */
  lemma ListFieldsCovers(data: Json)
    requires data.JObj?
    ensures ListFieldsError(data, ListFields).None? <==> ListsOk(data)
  {
    assert ListFields[0] == "plan_steps" && ListFields[1] == "assumptions" && ListFields[2] == "tools";
    assert ListFields[3] == "risks" && ListFields[4] == "fallbacks";
  }

  /** The rejections come in the order of the checks: a non-dict first;
      then a key set that differs, naming the missing keys in schema order
      and, only when none is missing, the extra keys in the dict's order. */
  lemma ValidateKeyErrors(data: Json, taskId: string)
    ensures !data.JObj? ==> ValidateReasoningSummary(data, taskId) == (false, Some("Output is not a JSON object."))
    ensures data.JObj? && SetOf(data.keys) != SetOf(ReasoningKeys) ==>
      var missing := NotIn(ReasoningKeys, data.fields.Keys);
      ValidateReasoningSummary(data, taskId).1 ==
        Some(if missing != [] then "Missing keys: " + Join(", ", missing)
             else "Extra keys not allowed: " + Join(", ", NotIn(data.keys, SetOf(ReasoningKeys))))
  {
  }

  /** With every schema key present, a differing key set has an extra key. */
  lemma ExtraWhenNoneMissing(data: Json)
    requires data.JObj? && data.WellFormed()
    requires SetOf(data.keys) != SetOf(ReasoningKeys) && NotIn(ReasoningKeys, data.fields.Keys) == []
    ensures NotIn(data.keys, SetOf(ReasoningKeys)) != []
  {
    assert SetOf(ReasoningKeys) <= SetOf(data.keys) by {
      forall k | k in SetOf(ReasoningKeys) ensures k in SetOf(data.keys) {
        assert k in ReasoningKeys;
        assert k !in NotIn(ReasoningKeys, data.fields.Keys);
      }
    }
    var k :| k in SetOf(data.keys) && k !in SetOf(ReasoningKeys);
    assert k in NotIn(data.keys, SetOf(ReasoningKeys));
  }

  // ---------------------------------------------------------------------
  // The summary as a dict (`asdict`) and back (`ReasoningSummary(**d)`)
  // ---------------------------------------------------------------------

  function SummaryFields(s: ReasoningSummary): map<string, Json> {
    map["agent_role" := JStr(s.agentRole), "task_id" := JStr(s.taskId), "final_answer" := JStr(s.finalAnswer),
        "plan_steps" := StrList(s.planSteps), "assumptions" := StrList(s.assumptions),
        "tools" := StrList(s.tools), "risks" := StrList(s.risks), "fallbacks" := StrList(s.fallbacks)]
  }

  /** `asdict(summary)` */
  function SummaryToDict(s: ReasoningSummary): (d: Json)
    ensures d.JObj? && d.keys == ReasoningKeys
  {
    JObj(ReasoningKeys, SummaryFields(s))
  }

  /** `ReasoningSummary(**data)` for a conforming dict. */
  function SummaryFromDict(data: Json, taskId: string): (s: ReasoningSummary)
    requires Conforms(data, taskId)
  {
    ReasoningSummary(
      Field(data, "agent_role").s, taskId, Field(data, "final_answer").s,
      Field(data, "plan_steps").Strings(), Field(data, "assumptions").Strings(),
      Field(data, "tools").Strings(), Field(data, "risks").Strings(), Field(data, "fallbacks").Strings())
  }

  /** The entries a conforming dict is known to hold. */
  lemma ConformsKeys(data: Json, taskId: string)
    requires Conforms(data, taskId)
    ensures data.JObj?
    ensures "plan_steps" in data.fields && data.fields["plan_steps"].IsStrList()
    ensures "assumptions" in data.fields && data.fields["assumptions"].IsStrList()
    ensures "tools" in data.fields && data.fields["tools"].IsStrList()
    ensures "risks" in data.fields && data.fields["risks"].IsStrList()
    ensures "fallbacks" in data.fields && data.fields["fallbacks"].IsStrList()
    ensures "agent_role" in data.fields && NonBlankStr(data.fields["agent_role"])
    ensures "final_answer" in data.fields && NonBlankStr(data.fields["final_answer"])
    ensures "task_id" in data.fields && data.fields["task_id"] == JStr(taskId)
  {
  }

  /** The values of the summary's dict. */
  lemma SummaryDictValues(s: ReasoningSummary)
    ensures var d := SummaryToDict(s);
      d.Get("agent_role") == Some(JStr(s.agentRole)) && d.Get("task_id") == Some(JStr(s.taskId))
      && d.Get("final_answer") == Some(JStr(s.finalAnswer))
      && d.Get("plan_steps") == Some(StrList(s.planSteps)) && d.Get("assumptions") == Some(StrList(s.assumptions))
      && d.Get("tools") == Some(StrList(s.tools)) && d.Get("risks") == Some(StrList(s.risks))
      && d.Get("fallbacks") == Some(StrList(s.fallbacks))
  {
  }

  /** A summary's dict conforms exactly when its role and answer are not
      blank and no plan step reads as numbered. */
  lemma SummaryConforms(s: ReasoningSummary)
    ensures Conforms(SummaryToDict(s), s.taskId) <==>
      Strip(s.agentRole) != "" && Strip(s.finalAnswer) != ""
      && forall i :: 0 <= i < |s.planSteps| ==> !Numbered(NormalizeStep(s.planSteps[i]))
  {
    var d := SummaryToDict(s);
    SummaryDictValues(s);
    assert SetOf(d.keys) == SetOf(ReasoningKeys);
    assert Field(d, "agent_role") == JStr(s.agentRole) && Field(d, "final_answer") == JStr(s.finalAnswer);
    assert Field(d, "task_id") == JStr(s.taskId);
    assert Field(d, "plan_steps") == StrList(s.planSteps);
    assert ListsOk(d);
  }

  /** A conforming summary's dict reads back as the same summary. */
  lemma SummaryRoundTrip(s: ReasoningSummary)
    requires Conforms(SummaryToDict(s), s.taskId)
    ensures SummaryFromDict(SummaryToDict(s), s.taskId) == s
  {
    SummaryDictValues(s);
  }

  // ---------------------------------------------------------------------
  // _deterministic_embed_input
  // ---------------------------------------------------------------------

  /** `f"{idx + 1}. {step}"` for every step. */
  function NumberedLines(steps: seq<string>): (r: seq<string>)
    ensures |r| == |steps|
    ensures forall i :: 0 <= i < |steps| ==> r[i] == NatToString(i + 1) + ". " + steps[i]
  {
    seq(|steps|, i requires 0 <= i < |steps| => NatToString(i + 1) + ". " + steps[i])
  }

  /** `f"- {item}"` for every item. */
  function Bullets(items: seq<string>): (r: seq<string>)
    ensures |r| == |items|
    ensures forall i :: 0 <= i < |items| ==> r[i] == "- " + items[i]
  {
    seq(|items|, i requires 0 <= i < |items| => "- " + items[i])
  }

  /** The lines a joined list leaves in the text: its entries, or one
      empty line when it has none (`"\n".join([])` is `""`). */
  function LinesOf(xs: seq<string>): (r: seq<string>)
    ensures r != [] && Join("\n", r) == Join("\n", xs)
    ensures xs != [] ==> r == xs
    ensures xs == [] ==> r == [""]
  {
    if xs == [] then [""] else xs
  }

  /** `_deterministic_embed_input(summary)`: the headings and the entries,
      one per line, joined by line breaks; a list without entries leaves
      an empty line under its heading. */
  function DeterministicEmbedInput(s: ReasoningSummary): (r: string)
    ensures r == Join("\n", EmbedLinesOf(s))
  {
    JoinSections("\n", "PLAN:", LinesOf(NumberedLines(s.planSteps)), "ASSUMPTIONS:", LinesOf(Bullets(s.assumptions)),
                 "FALLBACKS:", LinesOf(Bullets(s.fallbacks)));
    "PLAN:" + "\n" + Join("\n", NumberedLines(s.planSteps))
      + "\n" + "ASSUMPTIONS:" + "\n" + Join("\n", Bullets(s.assumptions))
      + "\n" + "FALLBACKS:" + "\n" + Join("\n", Bullets(s.fallbacks))
  }

  /** The lines of the embedded text: the headings, the numbered steps
      and the bulleted assumptions and fallbacks, with an empty line
      standing for an empty list. */
  function EmbedLinesOf(s: ReasoningSummary): (r: seq<string>)
    ensures |r| == |LinesOf(s.planSteps)| + |LinesOf(s.assumptions)| + |LinesOf(s.fallbacks)| + 3
  {
    ["PLAN:"] + LinesOf(NumberedLines(s.planSteps)) + ["ASSUMPTIONS:"] + LinesOf(Bullets(s.assumptions))
    + ["FALLBACKS:"] + LinesOf(Bullets(s.fallbacks))
  }

  /** When no entry contains a line break, splitting the text at line
      breaks gives the headings and the entries back: `PLAN:`, the steps
      numbered from 1, `ASSUMPTIONS:`, the bulleted assumptions,
      `FALLBACKS:`, the bulleted fallbacks, an empty list giving one empty
      line. */
  lemma EmbedLines(s: ReasoningSummary)
    requires forall i :: 0 <= i < |s.planSteps| ==> Free(s.planSteps[i], '\n')
    requires forall i :: 0 <= i < |s.assumptions| ==> Free(s.assumptions[i], '\n')
    requires forall i :: 0 <= i < |s.fallbacks| ==> Free(s.fallbacks[i], '\n')
    ensures Split(DeterministicEmbedInput(s), '\n') == EmbedLinesOf(s)
  {
    var p := LinesOf(NumberedLines(s.planSteps));
    var a := LinesOf(Bullets(s.assumptions));
    var f := LinesOf(Bullets(s.fallbacks));
    NumberedFree(s.planSteps);
    BulletsFree(s.assumptions);
    BulletsFree(s.fallbacks);
    LinesFreeConcat(["PLAN:"], p);
    LinesFreeConcat(["PLAN:"] + p, ["ASSUMPTIONS:"]);
    LinesFreeConcat(["PLAN:"] + p + ["ASSUMPTIONS:"], a);
    LinesFreeConcat(["PLAN:"] + p + ["ASSUMPTIONS:"] + a, ["FALLBACKS:"]);
    LinesFreeConcat(["PLAN:"] + p + ["ASSUMPTIONS:"] + a + ["FALLBACKS:"], f);
    JoinSplit(EmbedLinesOf(s), '\n');
  }

  /** Numbering line-free steps keeps every line free of line breaks. */
  lemma NumberedFree(steps: seq<string>)
    requires forall i :: 0 <= i < |steps| ==> Free(steps[i], '\n')
    ensures LinesFree(LinesOf(NumberedLines(steps)))
  {
    var lines := NumberedLines(steps);
    forall k | 0 <= k < |lines| ensures Free(lines[k], '\n') {
      var n := NatToString(k + 1);
      assert Free(n, '\n') by {
        assert AllDigits(n);
      }
      FreeConcat(n, ". ", '\n');
      FreeConcat(n + ". ", steps[k], '\n');
    }
  }

  /** Bulleting line-free items keeps every line free of line breaks. */
  lemma BulletsFree(items: seq<string>)
    requires forall i :: 0 <= i < |items| ==> Free(items[i], '\n')
    ensures LinesFree(LinesOf(Bullets(items)))
  {
    var lines := Bullets(items);
    forall k | 0 <= k < |lines| ensures Free(lines[k], '\n') {
      FreeConcat("- ", items[k], '\n');
    }
  }

  // ---------------------------------------------------------------------
  // ReasoningGuardGenerator.__init__ and generate
  // ---------------------------------------------------------------------

  /** The settings the constructor stores. */
  datatype GeneratorSettings = GeneratorSettings(
    provider: string,
    openaiKey: Option<string>,
    anthropicKey: Option<string>,
    openaiModel: string,
    anthropicModel: string,
    anthropicBaseUrl: string,
    numAgents: nat,
    enableEmbeddings: bool,
    voyageKey: Option<string>)

  /** The environment variables the constructor reads. */
  datatype GeneratorEnv = GeneratorEnv(
    openaiApiKey: Option<string>,
    anthropicApiKey: Option<string>,
    anthropicApiBase: Option<string>,
    voyageApiKey: Option<string>)

  /** `max(3, min(num_agents, 5))` */
  function ClampAgents(n: int): (r: nat)
    ensures 3 <= r <= 5
    ensures 3 <= n <= 5 ==> r == n
    ensures n < 3 ==> r == 3
    ensures n > 5 ==> r == 5
  {
    if n < 3 then 3 else if n > 5 then 5 else n
  }

  /** The base URL with trailing slashes stripped, then one trailing `/v1`
      removed: `x/v1/` and `x/v1` give `x`, `x/` gives `x`. The URL is cut
      at its end only: what is cut is a (possibly empty) run of slashes,
      preceded by `/v1` when that came just before them; a URL ending in
      neither is kept. */
  function NormalizeBaseUrl(url: string): (r: string)
    ensures |r| <= |url| && r == url[..|r|]
    ensures forall i :: |r| <= i < |url| ==> url[i] == '/' || (|r| + 3 <= |url| && i < |r| + 3 && url[|r|..|r| + 3] == "/v1")
    ensures !EndsWith(url, "/") && !EndsWith(url, "/v1") ==> r == url
    ensures EndsWith(url, "/v1") ==> r == url[..|url| - 3]
    ensures var stripped := RStripChar(url, '/');
      if EndsWith(stripped, "/v1") then r + "/v1" == stripped else r == stripped
  {
    var stripped := RStripChar(url, '/');
    assert !EndsWith(url, "/") ==> stripped == url;
    assert EndsWith(url, "/v1") ==> stripped == url;
    if EndsWith(stripped, "/v1") then stripped[..|stripped| - 3] else stripped
  }

  /** The error `__init__` raises for these arguments, if any. */
  function InitError(provider: string, openaiKey: Option<string>, anthropicKey: Option<string>,
                     env: GeneratorEnv, anthropicInstalled: bool): (r: Option<string>)
    ensures r.None? <==>
      !(provider == "openai" && Falsy(OrElse(openaiKey, env.openaiApiKey)))
      && !(provider == "anthropic" && (Falsy(OrElse(anthropicKey, env.anthropicApiKey)) || !anthropicInstalled))
  {
    var oKey := OrElse(openaiKey, env.openaiApiKey);
    var aKey := OrElse(anthropicKey, env.anthropicApiKey);
    if provider == "openai" && Falsy(oKey) then Some("OPENAI_API_KEY is required for OpenAI provider.")
    else if provider == "anthropic" && Falsy(aKey) then Some("ANTHROPIC_API_KEY is required for Anthropic provider.")
    else if provider == "anthropic" && !anthropicInstalled then
      Some("Install the anthropic package to use the Anthropic provider.")
    else None
  }

  /** `ReasoningGuardGenerator.__init__`: the settings, or the error it raises. */
  function NewGenerator(provider: string, openaiKey: Option<string>, openaiModel: string,
                        anthropicKey: Option<string>, anthropicModel: string, anthropicBaseUrl: Option<string>,
                        numAgents: int, enableEmbeddings: bool, voyageKey: Option<string>,
                        env: GeneratorEnv, anthropicInstalled: bool): (r: Result<GeneratorSettings>)
    ensures r.Err? <==> InitError(provider, openaiKey, anthropicKey, env, anthropicInstalled).Some?
    ensures r.Ok? ==>
      var g := r.value;
      g.provider == provider && 3 <= g.numAgents <= 5 && (3 <= numAgents <= 5 ==> g.numAgents == numAgents)
      && g.openaiKey == OrElse(openaiKey, env.openaiApiKey)
      && g.anthropicKey == OrElse(anthropicKey, env.anthropicApiKey)
      && g.voyageKey == OrElse(voyageKey, env.voyageApiKey)
      && g.openaiModel == openaiModel && g.anthropicModel == anthropicModel
      && g.enableEmbeddings == enableEmbeddings
      && (provider == "openai" ==> !Falsy(g.openaiKey))
      && (provider == "anthropic" ==> !Falsy(g.anthropicKey))
      && var chosen := OrElse(anthropicBaseUrl, env.anthropicApiBase);
         g.anthropicBaseUrl == NormalizeBaseUrl(if Falsy(chosen) then "https://api.anthropic.com" else chosen.value)
  {
    match InitError(provider, openaiKey, anthropicKey, env, anthropicInstalled)
    case Some(e) => Err(e)
    case None =>
      var base := OrElse(OrElse(anthropicBaseUrl, env.anthropicApiBase), Some("https://api.anthropic.com"));
      Ok(GeneratorSettings(
        provider, OrElse(openaiKey, env.openaiApiKey), OrElse(anthropicKey, env.anthropicApiKey),
        openaiModel, anthropicModel, NormalizeBaseUrl(base.value), ClampAgents(numAgents),
        enableEmbeddings, OrElse(voyageKey, env.voyageApiKey)))
  }

  /** The result of one agent, as the bundle records it. */
  datatype TaskRun = TaskRun(agentRole: string, isValid: bool, summary: Option<ReasoningSummary>, error: Option<string>)

  /** The counts of `TaskMeta`. */
  datatype TaskMeta = TaskMeta(totalRuns: nat, validRuns: nat, invalidRuns: nat, embeddingsEnabled: bool)

  /** `sum(1 for run in runs if run.is_valid)` */
  function CountValid(runs: seq<TaskRun>): (n: nat)
    ensures n <= |runs|
  {
    if runs == [] then 0 else CountValid(runs[..|runs| - 1]) + (if runs[|runs| - 1].isValid then 1 else 0)
  }

  /** The roles `generate` runs: `AGENT_ROLES[:num_agents]`. */
  function RolesRun(g: GeneratorSettings): (r: seq<string>)
  {
    Take(AgentRoles, g.numAgents)
  }

  /** The meta counts of `generate` for the runs of its roles. */
  function MetaOf(g: GeneratorSettings, runs: seq<TaskRun>): TaskMeta {
    var valid := CountValid(runs);
    TaskMeta(|runs|, valid, |runs| - valid, g.enableEmbeddings && !Falsy(g.voyageKey))
  }

  /** The valid and invalid runs add up to all runs, one per role run, and
      every run is counted valid exactly when all of them are valid. */
  lemma MetaCounts(g: GeneratorSettings, runs: seq<TaskRun>)
    requires 3 <= g.numAgents <= 5 && |runs| == |RolesRun(g)|
    ensures var m := MetaOf(g, runs);
      m.validRuns + m.invalidRuns == m.totalRuns == |runs| == g.numAgents
      && (m.validRuns == m.totalRuns <==> forall i :: 0 <= i < |runs| ==> runs[i].isValid)
      && (m.validRuns == 0 <==> forall i :: 0 <= i < |runs| ==> !runs[i].isValid)
  {
    CountValidAll(runs);
  }

  lemma {:induction false} CountValidAll(runs: seq<TaskRun>)
    ensures CountValid(runs) == |runs| <==> forall i :: 0 <= i < |runs| ==> runs[i].isValid
    ensures CountValid(runs) == 0 <==> forall i :: 0 <= i < |runs| ==> !runs[i].isValid
  {
    if runs != [] {
      var init := runs[..|runs| - 1];
      CountValidAll(init);
      assert forall i :: 0 <= i < |init| ==> init[i] == runs[i];
    }
  }
}
