/** The summary schema of `mprg/models.py`: the lenient validator the
    agent runner applies to an agent's JSON output. Unlike the generator's
    check it tolerates extra keys and has no rule about step numbering.
    Its `ReasoningSummary` dataclass has the same eight fields as the
    generator's, so the one datatype serves both. */
module Models {
  import opened Wrappers
  import opened Text
  import opened Json
  import opened Generator
  import opened Collections

  /** `REQUIRED_KEYS`, in order. */
  const RequiredKeys: seq<string> := ReasoningKeys

  /** Every key of `REQUIRED_KEYS` is present. */
  predicate HasKeys(data: Json)
    requires data.JObj?
  {
    "agent_role" in data.fields && "task_id" in data.fields && "final_answer" in data.fields
    && "plan_steps" in data.fields && "assumptions" in data.fields && "tools" in data.fields
    && "risks" in data.fields && "fallbacks" in data.fields
  }

  /** The five list fields hold lists of strings. */
  predicate ListsTyped(data: Json)
    requires data.JObj? && HasKeys(data)
  {
    data.fields["plan_steps"].IsStrList() && data.fields["assumptions"].IsStrList()
    && data.fields["tools"].IsStrList() && data.fields["risks"].IsStrList()
    && data.fields["fallbacks"].IsStrList()
  }

  /** The values the schema demands: three strings and five lists of strings. */
  predicate Typed(data: Json)
    requires data.JObj?
  {
    HasKeys(data)
    && data.fields["agent_role"].JStr? && data.fields["task_id"].JStr? && data.fields["final_answer"].JStr?
    && ListsTyped(data)
  }

  /** No required key is missing exactly when all are present. */
  lemma MissingNone(data: Json)
    requires data.JObj?
    ensures NotIn(RequiredKeys, data.fields.Keys) == [] <==> HasKeys(data)
  {
    var missing := NotIn(RequiredKeys, data.fields.Keys);
    if missing != [] {
      var k := missing[0];
      assert k in RequiredKeys && k !in data.fields;
    } else {
      assert forall k :: k in RequiredKeys ==> k !in missing;
    }
  }

  /** The list check passes exactly when the five lists are typed. */
  lemma ListsChecked(data: Json)
    requires data.JObj? && HasKeys(data)
    ensures ListFieldsError(data, ListFields).None? <==> ListsTyped(data)
  {
    assert ListFields[0] == "plan_steps" && ListFields[1] == "assumptions" && ListFields[2] == "tools";
    assert ListFields[3] == "risks" && ListFields[4] == "fallbacks";
  }

  /** `ReasoningSummary.from_dict(data)`: each field is the value stored
      under its key. */
  function FromDict(data: Json): (s: ReasoningSummary)
    requires data.JObj? && Typed(data)
    ensures data.fields["agent_role"] == JStr(s.agentRole) && data.fields["task_id"] == JStr(s.taskId)
    ensures data.fields["final_answer"] == JStr(s.finalAnswer)
    ensures data.fields["plan_steps"] == StrList(s.planSteps) && data.fields["assumptions"] == StrList(s.assumptions)
    ensures data.fields["tools"] == StrList(s.tools) && data.fields["risks"] == StrList(s.risks)
    ensures data.fields["fallbacks"] == StrList(s.fallbacks)
  {
    var s := ReasoningSummary(
      data.fields["agent_role"].s, data.fields["task_id"].s, data.fields["final_answer"].s,
      data.fields["plan_steps"].Strings(), data.fields["assumptions"].Strings(),
      data.fields["tools"].Strings(), data.fields["risks"].Strings(), data.fields["fallbacks"].Strings());
    StrListOf(data.fields["plan_steps"]);
    StrListOf(data.fields["assumptions"]);
    StrListOf(data.fields["tools"]);
    StrListOf(data.fields["risks"]);
    StrListOf(data.fields["fallbacks"]);
    s
  }

  /** A list of strings is the list of its strings. */
  lemma StrListOf(v: Json)
    requires v.IsStrList()
    ensures StrList(v.Strings()) == v
  {
  }

  /** The message of the first check of `validate_summary` that fails. */
  function SummaryError(data: Json, taskId: string): (r: Option<string>)
    ensures r.Some? ==> r.value != ""
  {
    if !data.JObj? then Some("Output is not a JSON object.")
    else
      var missing := NotIn(RequiredKeys, data.fields.Keys);
      if missing != [] then Some("Missing keys: " + Join(", ", missing))
      else if !NonBlankStr(data.Get("agent_role").GetOr(JNull)) then Some("agent_role must be a non-empty string.")
      else if data.Get("task_id").GetOr(JNull) != JStr(taskId) then Some("task_id must match the requested task_id.")
      else if !NonBlankStr(data.Get("final_answer").GetOr(JNull)) then Some("final_answer must be a non-empty string.")
      else ListFieldsError(data, ListFields)
  }

  /** What the lenient schema accepts: a dict holding every required key,
      with a non-blank role and answer, the requested task id and five
      lists of strings; other keys may be present. */
  predicate Accepted(data: Json, taskId: string) {
    data.JObj? && HasKeys(data)
    && NonBlankStr(data.fields["agent_role"])
    && data.fields["task_id"] == JStr(taskId)
    && NonBlankStr(data.fields["final_answer"])
    && ListsTyped(data)
  }

  /** The checks all pass exactly on the accepted dicts. */
  lemma SummaryErrorAccepts(data: Json, taskId: string)
    ensures SummaryError(data, taskId).None? <==> Accepted(data, taskId)
  {
    if data.JObj? {
      MissingNone(data);
      if HasKeys(data) {
        ListsChecked(data);
      }
    }
  }

  /** `validate_summary(data, task_id)`: `(ok, message, summary)`. */
  function ValidateSummary(data: Json, taskId: string): (r: (bool, string, Option<ReasoningSummary>))
    ensures r.0 <==> r.2.Some?
    ensures r.0 <==> r.1 == ""
    ensures r.0 <==> Accepted(data, taskId)
    ensures r.2.Some? ==> data.JObj? && Typed(data) && r.2.value == FromDict(data) && r.2.value.taskId == taskId
  {
    SummaryErrorAccepts(data, taskId);
    match SummaryError(data, taskId)
    case Some(m) => (false, m, None)
    case None => (true, "", Some(FromDict(data)))
  }

  /** A dict missing a required key is rejected with the missing keys
      listed in schema order; every rejection carries a message and no
      summary. */
  lemma MissingKeysReported(data: Json, taskId: string)
    requires data.JObj? && exists k :: k in RequiredKeys && k !in data.fields
    ensures var missing := NotIn(RequiredKeys, data.fields.Keys);
      missing != [] && ValidateSummary(data, taskId) == (false, "Missing keys: " + Join(", ", missing), None)
  {
    var k :| k in RequiredKeys && k !in data.fields;
    assert k in NotIn(RequiredKeys, data.fields.Keys);
  }

  /** Keys outside the schema do not change the verdict. */
  lemma ExtraKeysIgnored(data: Json, taskId: string, key: string, value: Json)
    requires data.JObj? && key !in RequiredKeys
    ensures var more := JObj(data.keys + [key], data.fields[key := value]);
      ValidateSummary(more, taskId).0 == ValidateSummary(data, taskId).0
  {
    var more := JObj(data.keys + [key], data.fields[key := value]);
    assert forall k :: k in RequiredKeys ==> (k in more.fields <==> k in data.fields);
    assert forall k :: k in RequiredKeys && k in data.fields ==> more.fields[k] == data.fields[k];
    assert Accepted(more, taskId) == Accepted(data, taskId);
  }

  /** Whatever passes the generator's strict check passes this one. */
  lemma StrictImpliesLenient(data: Json, taskId: string)
    requires Conforms(data, taskId)
    ensures ValidateSummary(data, taskId).0
  {
    ConformsKeys(data, taskId);
    assert HasKeys(data) && ListsTyped(data);
  }

  /** A summary's own dict validates and reads back as that summary. */
  lemma ValidateRoundTrip(s: ReasoningSummary)
    requires Strip(s.agentRole) != "" && Strip(s.finalAnswer) != ""
    ensures ValidateSummary(SummaryToDict(s), s.taskId) == (true, "", Some(s))
  {
    var d := SummaryToDict(s);
    SummaryDictValues(s);
    assert Accepted(d, s.taskId);
    FromDictRoundTrip(s);
  }

  /** `from_dict(asdict(s)) == s` */
  lemma FromDictRoundTrip(s: ReasoningSummary)
    ensures var d := SummaryToDict(s); HasKeys(d) && Typed(d) && FromDict(d) == s
  {
    var d := SummaryToDict(s);
    SummaryDictValues(s);
    assert Typed(d);
    var t := FromDict(d);
    StrListInjective(t.planSteps, s.planSteps);
    StrListInjective(t.assumptions, s.assumptions);
    StrListInjective(t.tools, s.tools);
    StrListInjective(t.risks, s.risks);
    StrListInjective(t.fallbacks, s.fallbacks);
  }

  lemma StrListInjective(a: seq<string>, b: seq<string>)
    requires StrList(a) == StrList(b)
    ensures a == b
  {
    assert StrList(a).Strings() == a && StrList(b).Strings() == b;
  }
}
