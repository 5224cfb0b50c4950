/** The execution gate (`mprg/gate.py`): a robustness score becomes a
    BLOCK, WARN or ALLOW decision, a BLOCK can be overridden once by the
    user, and a result serialises to a JSON dict. */
module Gate {
  import opened Wrappers
  import opened Text
  import opened Json
  import opened Scorer

  /** `GateDecision` */
  datatype GateDecision = Block | Warn | Allow {
    /** The enum member's `.value`. */
    function Value(): (v: string)
      ensures v == "BLOCK" || v == "WARN" || v == "ALLOW"
    {
      match this
      case Block => "BLOCK"
      case Warn => "WARN"
      case Allow => "ALLOW"
    }
  }

  /** Different decisions have different values. */
  lemma ValueInjective(a: GateDecision, b: GateDecision)
    requires a.Value() == b.Value()
    ensures a == b
  {
    assert "BLOCK"[0] != "WARN"[0] && "BLOCK"[0] != "ALLOW"[0] && "WARN"[0] != "ALLOW"[0];
  }

  /** `GateResult` */
  datatype GateResult = GateResult(
    decision: GateDecision,
    reason: string,
    action: string,
    suggestion: Option<string>,
    color: string,
    icon: string,
    robustness: RobustnessScore,
    canOverride: bool,
    overrideWarning: Option<string>)

  /** `_block_decision(robustness, is_moderate)`; the flag does not change the result. */
  function BlockDecision(robustness: RobustnessScore, isModerate: bool): (r: GateResult)
    ensures r.decision == Block && r.robustness == robustness && r.canOverride && r.overrideWarning.Some?
  {
    GateResult(
      Block,
      "Only " + NatToString(robustness.distinctFamilies) + " reasoning family detected. "
      + "Agreement among " + NatToString(robustness.totalAgents) + " agents is shallow.",
      "Execution blocked. Please revise the plan.",
      Some("Try rephrasing the task to encourage diverse approaches, "
        + "or explicitly ask for alternative solutions."),
      "red",
      "\U{1F6D1}",
      robustness,
      true,
      Some("Proceeding with fragile reasoning is risky. "
        + "The plan relies on a single untested approach."))
  }

  /** `_warn_decision(robustness)` */
  function WarnDecision(robustness: RobustnessScore): (r: GateResult)
    ensures r.decision == Warn && r.robustness == robustness && !r.canOverride && r.overrideWarning.None?
  {
    GateResult(
      Warn,
      NatToString(robustness.distinctFamilies) + " reasoning families detected. "
      + "Moderate diversity among " + NatToString(robustness.totalAgents) + " agents.",
      "Proceed with caution. Consider the alternatives.",
      Some("Review the different approaches before executing. "
        + "Ensure you understand why they differ."),
      "yellow",
      "\U{26A0}\U{FE0F}",
      robustness,
      false,
      None)
  }

  /** `_allow_decision(robustness)` */
  function AllowDecision(robustness: RobustnessScore): (r: GateResult)
    ensures r.decision == Allow && r.robustness == robustness && !r.canOverride && r.overrideWarning.None?
  {
    GateResult(
      Allow,
      NatToString(robustness.distinctFamilies) + " distinct reasoning approaches found. "
      + "Plan is validated by diverse logic.",
      "Execution allowed. Proceed with confidence.",
      None,
      "green",
      "\U{2705}",
      robustness,
      false,
      None)
  }

  /** `ExecutionGate`: read-only configuration. */
  datatype ExecutionGate = ExecutionGate(strictMode: bool, requireMinimumFamilies: int) {

    /** `evaluate(robustness)` */
    function Evaluate(robustness: RobustnessScore): (r: GateResult)
      ensures r.robustness == robustness
      ensures r.canOverride <==> r.decision == Block
      ensures r.decision == Block ==> r.overrideWarning.Some?
      ensures r.decision != Block ==> r.overrideWarning.None?
      ensures robustness.score == "FRAGILE" ==> r.decision == Block
      ensures robustness.score == "MODERATE" ==> r.decision == (if strictMode then Block else Warn)
      ensures robustness.score != "FRAGILE" && robustness.score != "MODERATE" ==> r.decision == Allow
    {
      if robustness.score == "FRAGILE" then BlockDecision(robustness, false)
      else if robustness.score == "MODERATE" then
        if strictMode then BlockDecision(robustness, true) else WarnDecision(robustness)
      else AllowDecision(robustness)
    }

    /** `override(result, confirmation)` */
    function Override(result: GateResult, confirmation: string): (r: GateResult)
      ensures !result.canOverride ==> r == result
      ensures result.canOverride ==>
        r.decision == Allow && r.reason == "User override: " + confirmation
        && !r.canOverride && r.robustness == result.robustness && r.overrideWarning.Some?
    {
      if !result.canOverride then result
      else
        GateResult(
          Allow,
          "User override: " + confirmation,
          "Execution allowed by user override.",
          Some("Proceeding despite fragile reasoning - monitor carefully."),
          "yellow",
          "\U{26A0}\U{FE0F}\U{2705}",
          result.robustness,
          false,
          Some("This execution was forced despite low robustness."))
    }
  }

  /** A second override changes nothing, whatever its confirmation. */
  lemma OverrideIdempotent(gate: ExecutionGate, result: GateResult, first: string, second: string)
    ensures gate.Override(gate.Override(result, first), second) == gate.Override(result, first)
  {
  }

  /** Of the evaluated results only a BLOCK can be overridden, and the
      override lets execution go ahead on the same analysis: a FRAGILE
      score, or a MODERATE one under strict mode, ends in ALLOW once
      confirmed. */
  lemma EvaluateThenOverride(gate: ExecutionGate, robustness: RobustnessScore, confirmation: string)
    ensures var r := gate.Override(gate.Evaluate(robustness), confirmation);
      r.decision == Allow || r.decision == Warn
    ensures var r := gate.Override(gate.Evaluate(robustness), confirmation);
      r.robustness == robustness && !r.canOverride
    ensures (robustness.score == "FRAGILE" || (robustness.score == "MODERATE" && gate.strictMode)) ==>
      gate.Override(gate.Evaluate(robustness), confirmation).reason == "User override: " + confirmation
  {
  }

  // ---------------------------------------------------------------------
  // gate_result_to_dict
  // ---------------------------------------------------------------------

  /** A dict literal: its keys in order, each with its value. */
  function Obj(entries: seq<(string, Json)>): (j: Json)
    ensures j.JObj? && j.keys == seq(|entries|, i requires 0 <= i < |entries| => entries[i].0)
  {
    JObj(seq(|entries|, i requires 0 <= i < |entries| => entries[i].0), FieldsOf(entries))
  }

  /** The key-to-value map of a dict literal; a later entry wins. */
  function FieldsOf(entries: seq<(string, Json)>): (m: map<string, Json>)
    ensures forall k :: k in m <==> exists i :: 0 <= i < |entries| && entries[i].0 == k
  {
    if entries == [] then map[]
    else
      var last := entries[|entries| - 1];
      var init := entries[..|entries| - 1];
      assert forall i :: 0 <= i < |init| ==> init[i] == entries[i];
      FieldsOf(init)[last.0 := last.1]
  }

  /** No key occurs twice. */
  predicate DistinctKeys(entries: seq<(string, Json)>) {
    forall i, j :: 0 <= i < j < |entries| ==> entries[i].0 != entries[j].0
  }

  /** With distinct keys, a dict literal is well formed and maps each key to its own value. */
  lemma ObjGet(entries: seq<(string, Json)>, i: nat)
    requires DistinctKeys(entries) && i < |entries|
    ensures Obj(entries).WellFormed()
    ensures Obj(entries).Get(entries[i].0) == Some(entries[i].1)
  {
    ObjWellFormed(entries);
    FieldsOfAt(entries, i);
  }

  lemma ObjWellFormed(entries: seq<(string, Json)>)
    requires DistinctKeys(entries)
    ensures Obj(entries).WellFormed()
  {
    var keys := Obj(entries).keys;
    forall k ensures k in FieldsOf(entries) <==> k in keys {
      if k in FieldsOf(entries) {
        var p :| 0 <= p < |entries| && entries[p].0 == k;
        assert keys[p] == k;
      }
    }
  }

  /** A later entry wins, so with distinct keys each entry's value stays. */
  lemma {:induction false} FieldsOfAt(entries: seq<(string, Json)>, i: nat)
    requires DistinctKeys(entries) && i < |entries|
    ensures entries[i].0 in FieldsOf(entries) && FieldsOf(entries)[entries[i].0] == entries[i].1
  {
    var init := entries[..|entries| - 1];
    if i < |entries| - 1 {
      assert init[i] == entries[i];
      assert DistinctKeys(init) by {
        forall a, b | 0 <= a < b < |init| ensures init[a].0 != init[b].0 {
          assert init[a] == entries[a] && init[b] == entries[b];
        }
      }
      FieldsOfAt(init, i);
      assert entries[i].0 != entries[|entries| - 1].0;
    }
  }

  /** `None` or the string. */
  function OptStr(s: Option<string>): Json {
    match s
    case None => JNull
    case Some(v) => JStr(v)
  }

  /** The `internal_similarity` entries of a breakdown dict. */
  function SimilarityEntries(b: Breakdown): seq<(string, Json)> {
    [("fol", JFloat(b.folSimilarity)), ("semantic", JFloat(b.semanticSimilarity)), ("combined", JFloat(b.combined))]
  }

  /** The entries of one breakdown dict. */
  function BreakdownEntries(b: Breakdown): seq<(string, Json)> {
    [
      ("family_id", JStr(b.familyId)),
      ("family_number", JInt(b.familyNumber)),
      ("member_count", JInt(b.memberCount)),
      ("members", StrList(b.members)),
      ("key_idea", JStr(b.keyIdea)),
      ("fol_pattern", JStr(b.folPattern)),
      ("assumptions", StrList(b.assumptions)),
      ("internal_similarity", Obj(SimilarityEntries(b)))]
  }

  /** One breakdown entry as the dict `score` builds. */
  function BreakdownJson(b: Breakdown): Json {
    Obj(BreakdownEntries(b))
  }

  /** The entries of the `robustness` sub-dict. */
  function RobustnessEntries(r: RobustnessScore): seq<(string, Json)> {
    [
      ("score", JStr(r.score)),
      ("confidence", JFloat(r.confidence)),
      ("total_agents", JInt(r.totalAgents)),
      ("distinct_families", JInt(r.distinctFamilies)),
      ("explanation", JStr(r.explanation)),
      ("recommendation", JStr(r.recommendation)),
      ("family_breakdown", JArr(seq(|r.familyBreakdown|, i requires 0 <= i < |r.familyBreakdown|
                                    => BreakdownJson(r.familyBreakdown[i]))))]
  }

  /** The `robustness` sub-dict. */
  function RobustnessJson(r: RobustnessScore): Json {
    Obj(RobustnessEntries(r))
  }

  /** The entries of the dict `gate_result_to_dict` returns. */
  function ResultEntries(result: GateResult): seq<(string, Json)> {
    [
      ("decision", JStr(result.decision.Value())),
      ("reason", JStr(result.reason)),
      ("action", JStr(result.action)),
      ("suggestion", OptStr(result.suggestion)),
      ("color", JStr(result.color)),
      ("icon", JStr(result.icon)),
      ("can_override", JBool(result.canOverride)),
      ("override_warning", OptStr(result.overrideWarning)),
      ("robustness", RobustnessJson(result.robustness))]
  }

  /** `gate_result_to_dict(result)` */
  function GateResultToDict(result: GateResult): Json {
    Obj(ResultEntries(result))
  }

  /** Keys that differ in length or first character are distinct. */
  lemma DistinctByShape(entries: seq<(string, Json)>)
    requires forall i :: 0 <= i < |entries| ==> entries[i].0 != []
    requires forall i, j :: 0 <= i < j < |entries| ==>
               |entries[i].0| != |entries[j].0| || entries[i].0[0] != entries[j].0[0]
    ensures DistinctKeys(entries)
  {
  }

  lemma ResultKeysDistinct(result: GateResult)
    ensures DistinctKeys(ResultEntries(result))
  {
    DistinctByShape(ResultEntries(result));
  }

  lemma RobustnessKeysDistinct(r: RobustnessScore)
    ensures DistinctKeys(RobustnessEntries(r))
  {
    DistinctByShape(RobustnessEntries(r));
  }

  /** The dict has these nine keys, in this order. */
  lemma GateResultKeys(result: GateResult)
    ensures GateResultToDict(result).keys
            == ["decision", "reason", "action", "suggestion", "color", "icon", "can_override",
                "override_warning", "robustness"]
  {
  }

  /** The dict copies the decision's value and every field of the result
      verbatim, `None` becoming `null`. */
  lemma GateResultToDictFields(result: GateResult)
    ensures var d := GateResultToDict(result);
      d.WellFormed()
      && d.Get("decision") == Some(JStr(result.decision.Value()))
      && d.Get("reason") == Some(JStr(result.reason))
      && d.Get("action") == Some(JStr(result.action))
      && d.Get("suggestion") == Some(if result.suggestion.Some? then JStr(result.suggestion.value) else JNull)
      && d.Get("color") == Some(JStr(result.color))
      && d.Get("icon") == Some(JStr(result.icon))
      && d.Get("can_override") == Some(JBool(result.canOverride))
      && d.Get("override_warning")
         == Some(if result.overrideWarning.Some? then JStr(result.overrideWarning.value) else JNull)
      && d.Get("robustness") == Some(RobustnessJson(result.robustness))
  {
    var entries := ResultEntries(result);
    ResultKeysDistinct(result);
    ObjGet(entries, 0);
    ObjGet(entries, 1);
    ObjGet(entries, 2);
    ObjGet(entries, 3);
    ObjGet(entries, 4);
    ObjGet(entries, 5);
    ObjGet(entries, 6);
    ObjGet(entries, 7);
    ObjGet(entries, 8);
  }

  /** The `robustness` sub-dict copies every field of the score verbatim,
      the breakdown as the list of the entries' dicts in order. */
  lemma RobustnessFields(r: RobustnessScore)
    ensures var j := RobustnessJson(r);
      j.WellFormed()
      && j.Get("score") == Some(JStr(r.score))
      && j.Get("confidence") == Some(JFloat(r.confidence))
      && j.Get("total_agents") == Some(JInt(r.totalAgents))
      && j.Get("distinct_families") == Some(JInt(r.distinctFamilies))
      && j.Get("explanation") == Some(JStr(r.explanation))
      && j.Get("recommendation") == Some(JStr(r.recommendation))
      && j.Get("family_breakdown").Some? && j.fields["family_breakdown"].JArr?
      && |j.fields["family_breakdown"].items| == |r.familyBreakdown|
      && forall i :: 0 <= i < |r.familyBreakdown| ==>
           j.fields["family_breakdown"].items[i] == BreakdownJson(r.familyBreakdown[i])
  {
    var entries := RobustnessEntries(r);
    RobustnessKeysDistinct(r);
    ObjGet(entries, 0);
    ObjGet(entries, 1);
    ObjGet(entries, 2);
    ObjGet(entries, 3);
    ObjGet(entries, 4);
    ObjGet(entries, 5);
    ObjGet(entries, 6);
  }

  /** A breakdown entry's dict holds its fields under the keys `score`
      writes, the three similarities grouped under `internal_similarity`. */
  lemma BreakdownFields(b: Breakdown)
    ensures var j := BreakdownJson(b);
      j.WellFormed()
      && j.Get("family_id") == Some(JStr(b.familyId))
      && j.Get("family_number") == Some(JInt(b.familyNumber))
      && j.Get("member_count") == Some(JInt(b.memberCount))
      && j.Get("members") == Some(StrList(b.members))
      && j.Get("key_idea") == Some(JStr(b.keyIdea))
      && j.Get("fol_pattern") == Some(JStr(b.folPattern))
      && j.Get("assumptions") == Some(StrList(b.assumptions))
      && j.Get("internal_similarity").Some?
      && var sim := j.fields["internal_similarity"];
        sim.WellFormed()
        && sim.Get("fol") == Some(JFloat(b.folSimilarity))
        && sim.Get("semantic") == Some(JFloat(b.semanticSimilarity))
        && sim.Get("combined") == Some(JFloat(b.combined))
  {
    var entries := BreakdownEntries(b);
    SimilarityFields(b);
    BreakdownKeysDistinct(b);
    ObjGet(entries, 0);
    ObjGet(entries, 1);
    ObjGet(entries, 2);
    ObjGet(entries, 3);
    ObjGet(entries, 4);
    ObjGet(entries, 5);
    ObjGet(entries, 6);
    ObjGet(entries, 7);
  }

  lemma SimilarityFields(b: Breakdown)
    ensures var sim := Obj(SimilarityEntries(b));
      sim.WellFormed()
      && sim.Get("fol") == Some(JFloat(b.folSimilarity))
      && sim.Get("semantic") == Some(JFloat(b.semanticSimilarity))
      && sim.Get("combined") == Some(JFloat(b.combined))
  {
    var entries := SimilarityEntries(b);
    DistinctByShape(entries);
    ObjGet(entries, 0);
    ObjGet(entries, 1);
    ObjGet(entries, 2);
  }

  lemma BreakdownKeysDistinct(b: Breakdown)
    ensures DistinctKeys(BreakdownEntries(b))
  {
    DistinctByShape(BreakdownEntries(b));
  }
}
