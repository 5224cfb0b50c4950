/** The multi-agent runner (`mprg/runner.py`): how many prompt variants a
    run uses, and how an agent's free-text answer is cut into a plan and an
    explanation. The LLM calls, timing and agent ids are left out; the
    answer text is an input here. */
module Runner {
  import opened Wrappers
  import opened Text
  import Collections

  /** A prompt variant: its id and the instruction appended to the prompt. */
  datatype PromptVariant = PromptVariant(id: string, suffix: string)

  /** `PROMPT_VARIANTS`, in order (their system prompts only reach the LLM). */
  const PromptVariants: seq<PromptVariant> := [
    PromptVariant("systematic", "Think step-by-step and explain your reasoning."),
    PromptVariant("pragmatic", "Explain why this is the most efficient approach."),
    PromptVariant("risk_aware", "Explain the risks you're mitigating and why."),
    PromptVariant("innovative", "Explain what makes this approach unique or better."),
    PromptVariant("conservative", "Explain why this tried-and-true approach is reliable.")
  ]

  /** The settings `MultiAgentRunner.__init__` stores. */
  datatype MultiAgentRunner = MultiAgentRunner(
    voyageKey: Option<string>,
    openaiKey: Option<string>,
    anthropicKey: Option<string>,
    numAgents: int)

  /** The environment variables the constructor falls back on. */
  datatype RunnerEnv = RunnerEnv(voyageApiKey: Option<string>, openaiApiKey: Option<string>,
                                 anthropicApiKey: Option<string>)

  /** `MultiAgentRunner.__init__`: each key is the argument unless it is
      empty, else the environment's; the agent count is capped at the
      number of variants but not raised. */
  function NewRunner(voyageKey: Option<string>, openaiKey: Option<string>, anthropicKey: Option<string>,
                     numAgents: int, env: RunnerEnv): (r: MultiAgentRunner)
    ensures r.numAgents <= |PromptVariants|
    ensures r.numAgents == numAgents || r.numAgents == |PromptVariants|
    ensures numAgents <= |PromptVariants| ==> r.numAgents == numAgents
    ensures !Falsy(voyageKey) ==> r.voyageKey == voyageKey
    ensures Falsy(voyageKey) ==> r.voyageKey == env.voyageApiKey
    ensures !Falsy(openaiKey) ==> r.openaiKey == openaiKey
    ensures Falsy(openaiKey) ==> r.openaiKey == env.openaiApiKey
    ensures !Falsy(anthropicKey) ==> r.anthropicKey == anthropicKey
    ensures Falsy(anthropicKey) ==> r.anthropicKey == env.anthropicApiKey
  {
    MultiAgentRunner(
      OrElse(voyageKey, env.voyageApiKey), OrElse(openaiKey, env.openaiApiKey),
      OrElse(anthropicKey, env.anthropicApiKey),
      if numAgents < |PromptVariants| then numAgents else |PromptVariants|)
  }

  /** The agent count `run` uses: the argument unless it is `None` or 0,
      else the runner's own, clamped to [1, 5]. */
  function RunCount(runner: MultiAgentRunner, numAgents: Option<int>): (count: nat)
    ensures 1 <= count <= |PromptVariants|
    ensures var asked := if numAgents.Some? && numAgents.value != 0 then numAgents.value else runner.numAgents;
      (1 <= asked <= |PromptVariants| ==> count == asked)
      && (asked < 1 ==> count == 1)
      && (asked > |PromptVariants| ==> count == |PromptVariants|)
  {
    var asked := if numAgents.Some? && numAgents.value != 0 then numAgents.value else runner.numAgents;
    if asked < 1 then 1 else if asked > |PromptVariants| then |PromptVariants| else asked
  }

  /** The variants `run` hands to its agents, one agent each. */
  function RunVariants(runner: MultiAgentRunner, numAgents: Option<int>): (vs: seq<PromptVariant>)
    ensures 1 <= |vs| <= |PromptVariants|
    ensures |vs| == RunCount(runner, numAgents)
    ensures vs == PromptVariants[..|vs|]
  {
    PromptVariants[..RunCount(runner, numAgents)]
  }

  /** Every agent of a run gets a different prompt variant. */
  lemma RunVariantsDistinct(runner: MultiAgentRunner, numAgents: Option<int>)
    ensures var vs := RunVariants(runner, numAgents);
      forall i, j :: 0 <= i < j < |vs| ==> vs[i].id != vs[j].id
  {
    var vs := RunVariants(runner, numAgents);
    forall i, j | 0 <= i < j < |vs| ensures vs[i].id != vs[j].id {
      assert vs[i] == PromptVariants[i] && vs[j] == PromptVariants[j];
      assert PromptVariants[0].id[0] == 's' && PromptVariants[1].id[0] == 'p' && PromptVariants[2].id[0] == 'r';
      assert PromptVariants[3].id[0] == 'i' && PromptVariants[4].id[0] == 'c';
    }
  }

  /** A run with no count of its own uses as many agents as the runner
      was built with, at least one and at most five. */
  lemma DefaultRunCount(voyageKey: Option<string>, openaiKey: Option<string>, anthropicKey: Option<string>,
                        numAgents: int, env: RunnerEnv)
    ensures var runner := NewRunner(voyageKey, openaiKey, anthropicKey, numAgents, env);
      |RunVariants(runner, None)| == (if numAgents < 1 then 1 else if numAgents > 5 then 5 else numAgents)
      && RunVariants(runner, None) == RunVariants(runner, Some(0))
  {
  }

  // ---------------------------------------------------------------------
  // _parse_response
  // ---------------------------------------------------------------------

  const PlanMarkers: seq<string> := ["## plan", "### plan", "plan:", "steps:"]

  const ExplainMarkers: seq<string> := [
    "## explanation", "### explanation", "explanation:",
    "## reasoning", "### reasoning", "reasoning:",
    "because", "the reason", "this approach"
  ]

  /** The smallest of `idxs` other than -1, or -1 when all are -1. */
  function MinFound(idxs: seq<int>): (r: int)
    ensures r == -1 <==> forall k :: 0 <= k < |idxs| ==> idxs[k] == -1
    ensures r != -1 ==> exists k :: 0 <= k < |idxs| && idxs[k] == r
    ensures forall k :: 0 <= k < |idxs| && idxs[k] != -1 ==> r != -1 && r <= idxs[k]
  {
    if idxs == [] then -1
    else
      var init := idxs[..|idxs| - 1];
      var prev := MinFound(init);
      var idx := idxs[|idxs| - 1];
      assert forall k :: 0 <= k < |init| ==> init[k] == idxs[k];
      if idx != -1 && (prev == -1 || idx < prev) then idx else prev
  }

  /** One more index: the minimum moves to it exactly when it is found
      and smaller. */
  lemma MinFoundSnoc(idxs: seq<int>, i: nat)
    requires i < |idxs|
    ensures var prev := MinFound(idxs[..i]);
      MinFound(idxs[..i + 1]) == if idxs[i] != -1 && (prev == -1 || idxs[i] < prev) then idxs[i] else prev
  {
    assert idxs[..i + 1][..i] == idxs[..i];
  }

  /** `[lower.find(m) for m in markers]` */
  function Finds(lower: string, markers: seq<string>): (r: seq<int>)
    ensures |r| == |markers|
    ensures forall k :: 0 <= k < |r| ==> r[k] == Find(lower, markers[k]) && -1 <= r[k] <= |lower|
  {
    seq(|markers|, k requires 0 <= k < |markers| => Find(lower, markers[k]))
  }

  /** The smallest `find` index of any of `markers` in `lower`, or -1 when
      none occurs. */
  function Earliest(lower: string, markers: seq<string>): (r: int)
    ensures -1 <= r <= |lower|
  {
    MinFound(Finds(lower, markers))
  }

  /** The index found is the first position of the text at which one of
      the markers occurs. */
  lemma EarliestOccurrence(lower: string, markers: seq<string>)
    ensures var r := Earliest(lower, markers);
      (r == -1 <==> forall k, i :: 0 <= k < |markers| && 0 <= i <= |lower| ==> !OccursAt(lower, markers[k], i))
      && (r != -1 ==>
            (exists k :: 0 <= k < |markers| && OccursAt(lower, markers[k], r))
            && forall k, i :: 0 <= k < |markers| && 0 <= i < r ==> !OccursAt(lower, markers[k], i))
  {
    var r := Earliest(lower, markers);
    var idxs := Finds(lower, markers);
    if r != -1 {
      var k :| 0 <= k < |markers| && idxs[k] == r;
      assert OccursAt(lower, markers[k], r);
      forall k, i | 0 <= k < |markers| && 0 <= i < r ensures !OccursAt(lower, markers[k], i) {
        assert idxs[k] == -1 || r <= idxs[k];
      }
    } else {
      forall k, i | 0 <= k < |markers| && 0 <= i <= |lower| ensures !OccursAt(lower, markers[k], i) {
        assert idxs[k] == -1;
      }
    }
  }

  /** The marker scan of `_parse_response`: one `find` per marker,
      keeping the smallest index found. */
  method FindEarliest(lower: string, markers: seq<string>) returns (start: int)
    ensures start == Earliest(lower, markers)
  {
    ghost var idxs := Finds(lower, markers);
    start := -1;
    for i := 0 to |markers|
      invariant start == MinFound(idxs[..i])
    {
      var idx := Find(lower, markers[i]);
      MinFoundSnoc(idxs, i);
      if idx != -1 && (start == -1 || idx < start) {
        start := idx;
      }
    }
    assert idxs[..|markers|] == idxs;
  }

  /** The heuristic split when the sections are not both marked: the lines
      of the stripped text, the first half (rounded down) for the plan and
      the rest for the explanation. */
  function Halves(response: string): (string, string) {
    var lines := Split(Strip(response), '\n');
    var mid := |lines| / 2;
    (Join("\n", lines[..mid]), Join("\n", lines[mid..]))
  }

  /** The plan and explanation before stripping, given the two scans. */
  function Sections(response: string, planStart: int, explainStart: int): (string, string)
    requires -1 <= planStart <= |response| && -1 <= explainStart <= |response|
  {
    if planStart != -1 && explainStart != -1 then
      if planStart < explainStart then (response[planStart..explainStart], response[explainStart..])
      else (response[planStart..], response[explainStart..planStart])
    else Halves(response)
  }

  /** Where the plan and explanation sections start in `response`. */
  function Starts(response: string): (int, int) {
    var lower := Lower(response);
    (Earliest(lower, PlanMarkers), Earliest(lower, ExplainMarkers))
  }

  /** `_parse_response(response)`, both parts stripped: neither starts or
      ends with whitespace. */
  function Parsed(response: string): (r: (string, string))
    ensures Trimmed(r.0) && Trimmed(r.1)
  {
    var (p, e) := Starts(response);
    var (plan, explanation) := Sections(response, p, e);
    (Strip(plan), Strip(explanation))
  }

  /** `MultiAgentRunner._parse_response` */
  method ParseResponse(response: string) returns (plan: string, explanation: string)
    ensures (plan, explanation) == Parsed(response)
  {
    var lower := Lower(response);
    var planStart := FindEarliest(lower, PlanMarkers);
    var explainStart := FindEarliest(lower, ExplainMarkers);
    var (p, e) := Sections(response, planStart, explainStart);
    plan := Strip(p);
    explanation := Strip(e);
  }

  /** With both sections marked, the earlier one runs up to the later one
      and the later one to the end: together they are the text from the
      first marker on. Each starts where one of its markers occurs first
      (`EarliestOccurrence`). */
  lemma MarkedSections(response: string, p: int, e: int)
    requires 0 <= p <= |response| && 0 <= e <= |response|
    ensures p < e ==> Sections(response, p, e).0 + Sections(response, p, e).1 == response[p..]
                      && |Sections(response, p, e).0| == e - p
    ensures e <= p ==> Sections(response, p, e).1 + Sections(response, p, e).0 == response[e..]
                       && |Sections(response, p, e).1| == p - e
  {
    if p < e {
      assert response[p..e] + response[e..] == response[p..];
    } else {
      assert response[e..p] + response[p..] == response[e..];
    }
  }

  /** Without both markers the halves, joined again by a line break, are
      the stripped text; the explanation gets the extra line of an odd
      count, and a one-line text is all explanation. */
  lemma UnmarkedHalves(response: string)
    ensures var lines := Split(Strip(response), '\n');
      var (first, second) := Halves(response);
      (|lines| >= 2 ==> first + "\n" + second == Strip(response) && |lines| / 2 <= |lines| - |lines| / 2)
      && (|lines| == 1 ==> first == "" && second == Strip(response))
  {
    SplitJoin(Strip(response), '\n');
    JoinedHalves(Split(Strip(response), '\n'));
  }

  /** The two halves of a list of lines, each joined, then joined by a
      line break, give the whole list joined. */
  lemma JoinedHalves(lines: seq<string>)
    requires lines != []
    ensures var mid := |lines| / 2;
      (|lines| >= 2 ==> Join("\n", lines[..mid]) + "\n" + Join("\n", lines[mid..]) == Join("\n", lines))
      && (|lines| == 1 ==> Join("\n", lines[..mid]) == "" && Join("\n", lines[mid..]) == Join("\n", lines))
  {
    var mid := |lines| / 2;
    Collections.PrefixRest(lines, mid);
    if |lines| >= 2 {
      JoinConcat("\n", lines[..mid], lines[mid..]);
    } else {
      assert lines[mid..] == lines;
    }
  }
}
