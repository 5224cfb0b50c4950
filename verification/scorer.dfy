/** Robustness scoring from the reasoning families (`mprg/scorer.py`): the
    number of distinct families decides the classification, and every
    family gets a breakdown entry. */
module Scorer {
  import opened Text
  import opened Collections
  import Grouper

  /** One entry of `family_breakdown`. */
  datatype Breakdown = Breakdown(
    familyId: string,
    familyNumber: nat,
    memberCount: nat,
    members: seq<string>,
    keyIdea: string,
    folPattern: string,
    assumptions: seq<string>,
    folSimilarity: real,
    semanticSimilarity: real,
    combined: real)

  /** `RobustnessScore` */
  datatype RobustnessScore = RobustnessScore(
    totalAgents: nat,
    distinctFamilies: nat,
    score: string,
    confidence: real,
    familyBreakdown: seq<Breakdown>,
    explanation: string,
    recommendation: string)

  /** `[len(f.member_ids) for f in families]` */
  function MemberCounts(families: seq<Grouper.ReasoningFamily>): (r: seq<nat>)
    ensures |r| == |families| && forall i :: 0 <= i < |r| ==> r[i] == |families[i].memberIds|
  {
    seq(|families|, i requires 0 <= i < |families| => |families[i].memberIds|)
  }

  /** `sum(len(f.member_ids) for f in families)` */
  function TotalAgents(families: seq<Grouper.ReasoningFamily>): nat {
    Sum(MemberCounts(families))
  }

  /** The breakdown entry of the family at index `i`. */
  function EntryOf(family: Grouper.ReasoningFamily, i: nat): Breakdown {
    Breakdown(
      family.familyId,
      i + 1,
      |family.memberIds|,
      family.memberIds,
      family.sharedKeyIdea,
      Take(family.sharedFolPattern, 100),
      Take(family.sharedAssumptions, 3),
      family.folSimilarity,
      family.semanticSimilarity,
      family.combinedScore)
  }

  /** The breakdown loop of `score`: one entry per family, in order. */
  function BreakdownOf(families: seq<Grouper.ReasoningFamily>): (r: seq<Breakdown>)
    ensures |r| == |families|
  {
    seq(|families|, i requires 0 <= i < |families| => EntryOf(families[i], i))
  }

  /** The classification of a family count. */
  function Label(numFamilies: nat): string {
    if numFamilies == 1 then "FRAGILE" else if numFamilies == 2 then "MODERATE" else "ROBUST"
  }

  function Confidence(numFamilies: nat): real {
    if numFamilies == 1 then 0.9 else if numFamilies == 2 then 0.7 else 0.85
  }

  /** The fixed closing sentences of the explanation, by classification. */
  const FragileAgreement := "Agreement is shallow - they're saying the same thing in different words."
  const ModerateDiversity := "Some diversity exists, but limited validation."
  const RobustPaths := "Multiple independent paths support the conclusion."

  /** The recommendation, by classification. */
  const FragileRecommendation := "Consider revising the task or explicitly requesting alternative approaches. "
                                 + "Current plan relies on a single reasoning path."
  const ModerateRecommendation := "Plan has moderate support. Consider whether both approaches lead to same outcome. "
                                  + "Proceed with awareness of the alternative perspective."
  const RobustRecommendation := "Plan is well-validated by diverse reasoning. " + "Proceed with confidence."

  function Explanation(numFamilies: nat, totalAgents: nat): string {
    if numFamilies == 1 then
      "All " + NatToString(totalAgents) + " agents used the same underlying reasoning. " + FragileAgreement
    else
      "Found " + NatToString(numFamilies) + " distinct reasoning approaches among "
      + NatToString(totalAgents) + " agents. " + (if numFamilies == 2 then ModerateDiversity else RobustPaths)
  }

  function Recommendation(numFamilies: nat): string {
    if numFamilies == 1 then FragileRecommendation
    else if numFamilies == 2 then ModerateRecommendation
    else RobustRecommendation
  }

  /** `RobustnessScorer.score(families)`: one breakdown entry per family,
      and a single family, and only it, is FRAGILE. */
  function Score(families: seq<Grouper.ReasoningFamily>): (r: RobustnessScore)
    ensures r.distinctFamilies == |families| && |r.familyBreakdown| == |families|
    ensures r.score == "FRAGILE" <==> |families| == 1
  {
    LabelCases(|families|);
    var numFamilies := |families|;
    var totalAgents := TotalAgents(families);
    RobustnessScore(totalAgents, numFamilies, Label(numFamilies), Confidence(numFamilies),
      BreakdownOf(families), Explanation(numFamilies, totalAgents), Recommendation(numFamilies))
  }

  /** One family is FRAGILE (0.9), two MODERATE (0.7), and any other count,
      none included, ROBUST (0.85); the counts are the family count and the
      number of members over all families. */
  lemma ScoreClassification(families: seq<Grouper.ReasoningFamily>)
    ensures var r := Score(families);
      r.distinctFamilies == |families| && r.totalAgents == TotalAgents(families)
      && (r.score == "FRAGILE" <==> |families| == 1)
      && (r.score == "MODERATE" <==> |families| == 2)
      && (|families| != 1 && |families| != 2 ==> r.score == "ROBUST")
      && r.confidence == (if |families| == 1 then 0.9 else if |families| == 2 then 0.7 else 0.85)
  {
    var r := Score(families);
    assert r.score == Label(|families|) && r.confidence == Confidence(|families|);
    LabelCases(|families|);
  }

  /** The explanation names the agent count, and for several families the
      family count, and closes with the classification's own sentence; each
      classification has its own recommendation. */
  lemma ScoreTexts(families: seq<Grouper.ReasoningFamily>)
    ensures var r := Score(families);
      var agents := NatToString(r.totalAgents);
      (|families| == 1 ==>
        r.explanation == "All " + agents + " agents used the same underlying reasoning. " + FragileAgreement
        && r.recommendation == FragileRecommendation)
      && (|families| != 1 ==>
        StartsWith(r.explanation, "Found " + NatToString(|families|) + " distinct reasoning approaches among "
                                  + agents + " agents. "))
      && (|families| == 2 ==> EndsWith(r.explanation, ModerateDiversity) && r.recommendation == ModerateRecommendation)
      && (|families| != 1 && |families| != 2 ==>
        EndsWith(r.explanation, RobustPaths) && r.recommendation == RobustRecommendation)
  {
    var r := Score(families);
    assert r.explanation == Explanation(|families|, r.totalAgents) && r.recommendation == Recommendation(|families|);
    if |families| != 1 {
      SeveralExplanation(|families|, r.totalAgents);
    }
  }

  lemma SeveralExplanation(n: nat, agents: nat)
    requires n != 1
    ensures var head := "Found " + NatToString(n) + " distinct reasoning approaches among " + NatToString(agents) + " agents. ";
      var tail := if n == 2 then ModerateDiversity else RobustPaths;
      StartsWith(Explanation(n, agents), head) && EndsWith(Explanation(n, agents), tail)
  {
    var head := "Found " + NatToString(n) + " distinct reasoning approaches among " + NatToString(agents) + " agents. ";
    var tail := if n == 2 then ModerateDiversity else RobustPaths;
    assert Explanation(n, agents) == head + tail;
    assert (head + tail)[..|head|] == head;
    assert (head + tail)[|head + tail| - |tail|..] == tail;
  }

  lemma LabelCases(n: nat)
    ensures Label(n) == "FRAGILE" <==> n == 1
    ensures Label(n) == "MODERATE" <==> n == 2
    ensures n != 1 && n != 2 ==> Label(n) == "ROBUST"
  {
    assert "FRAGILE"[0] != "MODERATE"[0] && "FRAGILE"[0] != "ROBUST"[0] && "MODERATE"[0] != "ROBUST"[0];
  }

  /** The breakdown has one entry per family, in order, numbered from 1,
      counting and listing the members, copying the key idea and the three
      similarity scores, and keeping the first 3 assumptions (`[:3]`) and
      the first 100 characters of the pattern (`[:100]`). */
  lemma ScoreBreakdown(families: seq<Grouper.ReasoningFamily>)
    ensures var bd := Score(families).familyBreakdown;
      |bd| == |families|
      && forall i :: 0 <= i < |families| ==>
        var f := families[i];
        bd[i].familyId == f.familyId
        && bd[i].familyNumber == i + 1
        && bd[i].memberCount == |f.memberIds| && bd[i].members == f.memberIds
        && bd[i].keyIdea == f.sharedKeyIdea
        && bd[i].assumptions == f.sharedAssumptions[..if |f.sharedAssumptions| < 3 then |f.sharedAssumptions| else 3]
        && bd[i].folPattern == f.sharedFolPattern[..if |f.sharedFolPattern| < 100 then |f.sharedFolPattern| else 100]
        && bd[i].folSimilarity == f.folSimilarity
        && bd[i].semanticSimilarity == f.semanticSimilarity
        && bd[i].combined == f.combinedScore
  {
    var bd := BreakdownOf(families);
    assert Score(families).familyBreakdown == bd;
    forall i | 0 <= i < |families|
      ensures bd[i] == EntryOf(families[i], i)
    {
    }
  }

  /** The total is the number of member ids over all families. */
  lemma {:induction false} TotalAgentsFlatten(families: seq<Grouper.ReasoningFamily>)
    ensures TotalAgents(families) == |Flatten(MemberLists(families))|
  {
    if families != [] {
      var init := families[..|families| - 1];
      TotalAgentsFlatten(init);
      assert MemberCounts(families) == MemberCounts(init) + [|families[|families| - 1].memberIds|];
      SumAppend(MemberCounts(init), |families[|families| - 1].memberIds|);
      assert MemberLists(families) == MemberLists(init) + [families[|families| - 1].memberIds];
      FlattenAppend(MemberLists(init), families[|families| - 1].memberIds);
    }
  }

  /** `[f.member_ids for f in families]` */
  function MemberLists(families: seq<Grouper.ReasoningFamily>): (r: seq<seq<string>>)
    ensures |r| == |families|
  {
    seq(|families|, i requires 0 <= i < |families| => families[i].memberIds)
  }

  // ---------------------------------------------------------------------
  // get_diversity_matrix
  // ---------------------------------------------------------------------

  /** The dict `get_diversity_matrix` returns. */
  datatype Diversity =
    | NoDiversity(message: string)
    | Diversity(familiesCount: nat, keyIdeas: seq<string>, totalAssumptions: nat,
                uniqueAssumptions: nat, assumptionOverlap: real)

  /** `[f.shared_assumptions for f in families]` */
  function AssumptionLists(families: seq<Grouper.ReasoningFamily>): (r: seq<seq<string>>)
    ensures |r| == |families|
  {
    seq(|families|, i requires 0 <= i < |families| => families[i].sharedAssumptions)
  }

  /** `RobustnessScorer.get_diversity_matrix(families)`: below two families
      only a message; otherwise the key ideas of the families in order, the
      number of shared assumptions of all families together and of distinct
      ones, and the overlap `1 - unique / max(total, 1)`. */
  function DiversityMatrix(families: seq<Grouper.ReasoningFamily>): (r: Diversity)
    ensures r.NoDiversity? <==> |families| < 2
    ensures r.Diversity? ==>
      r.familiesCount == |families| && |r.keyIdeas| == |families|
      && (forall i :: 0 <= i < |families| ==> r.keyIdeas[i] == families[i].sharedKeyIdea)
      && r.uniqueAssumptions <= r.totalAssumptions
    ensures r.Diversity? ==>
      var all := Flatten(AssumptionLists(families));
      r.totalAssumptions == |all| && r.uniqueAssumptions == |SetOf(all)|
      && r.assumptionOverlap
         == 1.0 - (r.uniqueAssumptions as real) / ((if r.totalAssumptions > 1 then r.totalAssumptions else 1) as real)
  {
    if |families| < 2 then NoDiversity("Only one reasoning family found")
    else
      var allAssumptions := Flatten(AssumptionLists(families));
      SetOfSize(allAssumptions);
      var total := |allAssumptions|;
      var unique := |SetOf(allAssumptions)|;
      Diversity(
        |families|,
        seq(|families|, i requires 0 <= i < |families| => families[i].sharedKeyIdea),
        total,
        unique,
        1.0 - (unique as real) / (if total > 1 then total else 1) as real)
  }

  /** Fewer than two families show no diversity. Otherwise the distinct
      assumptions are at most all of them, the overlap lies in [0, 1], and
      it is 0 exactly when there are assumptions and no family repeats one
      another family has (or it has itself); with no assumptions at all it
      is 1. */
  lemma DiversityBounds(families: seq<Grouper.ReasoningFamily>)
    ensures DiversityMatrix(families).NoDiversity? <==> |families| < 2
    ensures var d := DiversityMatrix(families);
      d.Diversity? ==>
        d.familiesCount == |families|
        && d.uniqueAssumptions <= d.totalAssumptions
        && (d.totalAssumptions > 0 ==> d.uniqueAssumptions >= 1)
        && 0.0 <= d.assumptionOverlap <= 1.0
        && (d.assumptionOverlap == 0.0 <==> d.totalAssumptions > 0 && d.uniqueAssumptions == d.totalAssumptions)
        && (d.totalAssumptions == 0 ==> d.assumptionOverlap == 1.0)
  {
    if |families| >= 2 {
      var allAssumptions := Flatten(AssumptionLists(families));
      SetOfSize(allAssumptions);
      var total := |allAssumptions|;
      var unique := |SetOf(allAssumptions)|;
      OverlapBounds(unique, total);
    }
  }

  /** The assumption total counts every family's shared assumptions, and
      an assumption is among the distinct ones exactly when some family
      shares it. */
  lemma DiversityCounts(families: seq<Grouper.ReasoningFamily>)
    ensures var d := DiversityMatrix(families);
      d.Diversity? ==>
        d.totalAssumptions == Sum(SharedCounts(families))
        && forall x :: x in SetOf(Flatten(AssumptionLists(families)))
             <==> exists k :: 0 <= k < |families| && x in families[k].sharedAssumptions
  {
    var lists := AssumptionLists(families);
    FlattenLength(lists, SharedCounts(families));
    forall x ensures x in SetOf(Flatten(lists)) <==> exists k :: 0 <= k < |families| && x in families[k].sharedAssumptions {
      FlattenMembership(lists, x);
    }
  }

  /** `len(f.shared_assumptions)` for each family. */
  function SharedCounts(families: seq<Grouper.ReasoningFamily>): (r: seq<nat>)
    ensures |r| == |families| && forall k :: 0 <= k < |families| ==> r[k] == |families[k].sharedAssumptions|
  {
    seq(|families|, k requires 0 <= k < |families| => |families[k].sharedAssumptions|)
  }

  /** The overlap `1 - unique / max(total, 1)` as a number in [0, 1]. */
  lemma OverlapBounds(unique: nat, total: nat)
    requires unique <= total && (total > 0 ==> unique >= 1)
    ensures var o := 1.0 - (unique as real) / (if total > 1 then total else 1) as real;
      0.0 <= o <= 1.0 && (o == 0.0 <==> total > 0 && unique == total) && (total == 0 ==> o == 1.0)
  {
    if total > 1 {
      var q := (unique as real) / (total as real);
      assert q * (total as real) == unique as real;
      assert q <= 1.0;
      assert q == 1.0 ==> unique == total;
    }
  }
}
