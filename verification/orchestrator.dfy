/** The decision logic of `MPRGOrchestrator` in `mprg/orchestrator.py`:
    turning agent runs into stored documents, attaching plan embeddings,
    clustering the valid runs into reasoning families and computing the
    task's robustness verdict. The MongoDB store, the agent runner and the
    embedding model are left to the caller: what the store would return
    is a parameter, what it would be sent is a result, and the embedding
    model and the cosine similarity are function parameters. */
module Orchestrator {
  import opened Wrappers
  import opened Text
  import opened Collections
  import opened Groups
  import opened Cluster
  import opened Generator

  /** `AgentRun`: the outcome of one agent run, valid or not. */
  datatype AgentRun = AgentRun(
    runId: string,
    taskId: string,
    agentRole: string,
    rawResponse: string,
    summary: Option<ReasoningSummary>,
    valid: bool,
    error: Option<string>,
    elapsedMs: int,
    attemptCount: int)

  /** A stored run document. `planEmbedding` is `None` where the stored
      value is missing or null. */
  datatype RunDoc = RunDoc(
    runId: string,
    agentRole: string,
    rawResponse: string,
    summary: Option<ReasoningSummary>,
    valid: bool,
    error: Option<string>,
    elapsedMs: int,
    attemptCount: int,
    planEmbedding: Option<seq<real>>)

  /** The `metrics` of a family document. */
  datatype Metrics = Metrics(familyCount: nat, robustnessStatus: string, answersAgree: bool)

  /** A family document, as handed to the store. */
  datatype FamilyDoc = FamilyDoc(
    familyId: string,
    runIds: seq<string>,
    representativeRunId: string,
    familySignature: string,
    metrics: Metrics)

  /** The fields `_cluster_and_update` stores for a task. */
  datatype TaskUpdate = TaskUpdate(
    status: string,
    totalRuns: nat,
    validRuns: nat,
    familyCount: nat,
    robustnessStatus: string,
    answersAgree: bool)

  // ---------------------------------------------------------------------
  // _run_to_doc
  // ---------------------------------------------------------------------

  /** `_run_to_doc(run)`: every field of the run copied, and no plan
      embedding yet. */
  function RunToDoc(run: AgentRun): (d: RunDoc)
    ensures d.planEmbedding == Some([])
    ensures d.runId == run.runId && d.summary == run.summary && d.valid == run.valid
    ensures d.agentRole == run.agentRole && d.rawResponse == run.rawResponse && d.error == run.error
    ensures d.elapsedMs == run.elapsedMs && d.attemptCount == run.attemptCount
  {
    RunDoc(run.runId, run.agentRole, run.rawResponse, run.summary, run.valid, run.error,
           run.elapsedMs, run.attemptCount, Some([]))
  }

  // ---------------------------------------------------------------------
  // Status mapping
  // ---------------------------------------------------------------------

  /** `"FRAGILE" if family_count == 1 else "ROBUST"` */
  function Robustness(familyCount: nat): (status: string)
    ensures status == "FRAGILE" || status == "ROBUST"
  {
    if familyCount == 1 then "FRAGILE" else "ROBUST"
  }

  lemma RobustnessFragile(familyCount: nat)
    ensures Robustness(familyCount) == "FRAGILE" <==> familyCount == 1
  {
    assert "FRAGILE" != "ROBUST" by {
      assert "FRAGILE"[0] != "ROBUST"[0];
    }
  }

  /** Exactly one family among the runs' partition means the runs are there
      and each pair is joined by a chain of linked pairs. */
  lemma {:induction false} OneFamilyIffConnected(records: seq<RunRecord>, pt: real, at: real,
                                                  cosine: (seq<real>, seq<real>) -> real, groups: seq<seq<nat>>)
    requires IsPartition(groups, |records|)
    requires forall k, x, y :: 0 <= k < |groups| && x in groups[k] && 0 <= y < |records| ==>
               (y in groups[k] <==> Connected(records, pt, at, cosine, x, y))
    ensures |groups| == 1 <==>
      |records| > 0 && forall x, y :: 0 <= x < |records| && 0 <= y < |records| ==> Connected(records, pt, at, cosine, x, y)
  {
    var n := |records|;
    if |groups| == 1 {
      assert groups[0][0] < n;
      forall x, y | 0 <= x < n && 0 <= y < n ensures Connected(records, pt, at, cosine, x, y) {
        assert InGroupBefore(groups, 1, x);
        assert InGroupBefore(groups, 1, y);
        assert x in groups[0] && y in groups[0];
      }
    }
    if n > 0 && forall x, y :: 0 <= x < n && 0 <= y < n ==> Connected(records, pt, at, cosine, x, y) {
      assert InGroupBefore(groups, |groups|, 0);
      var z := groups[0][0];
      assert z in groups[0] && z < n;
      forall x | 0 <= x < n ensures x in groups[0] {
        assert Connected(records, pt, at, cosine, z, x);
      }
      if |groups| > 1 {
        SecondGroupOutsideFirst(groups, n);
        assert false;
      }
    }
  }

  /** The first member of the second group is a position outside the first. */
  lemma SecondGroupOutsideFirst(groups: seq<seq<nat>>, n: nat)
    requires IsPartition(groups, n) && |groups| > 1
    ensures groups[1][0] < n && groups[1][0] !in groups[0]
  {
    assert groups[1][0] in groups[1];
  }

  // ---------------------------------------------------------------------
  // _check_answer_agreement
  // ---------------------------------------------------------------------

  /** The final answer, stripped and lower-cased. */
  function AnswerKey(run: RunDoc): string
    requires run.summary.Some?
  {
    Lower(Strip(run.summary.value.finalAnswer))
  }

  /** There are runs and all their answer keys are the same: no runs never
      agree, and a single run always does. */
  predicate AnswersAgree(runs: seq<RunDoc>): (agree: bool)
    requires forall i :: 0 <= i < |runs| ==> runs[i].summary.Some?
    ensures runs == [] ==> !agree
    ensures |runs| == 1 ==> agree
  {
    assert forall i, j :: 0 <= i < |runs| && 0 <= j < |runs| && |runs| == 1 ==> runs[i] == runs[j];
    |runs| > 0 && forall i, j :: 0 <= i < |runs| && 0 <= j < |runs| ==> AnswerKey(runs[i]) == AnswerKey(runs[j])
  }

  /** `len(set(s)) == 1` exactly when `s` is non-empty and constant. */
  lemma OneValue<T>(s: seq<T>)
    ensures |SetOf(s)| == 1 <==> |s| > 0 && forall i, j :: 0 <= i < |s| && 0 <= j < |s| ==> s[i] == s[j]
  {
    if |s| > 0 && forall i, j :: 0 <= i < |s| && 0 <= j < |s| ==> s[i] == s[j] {
      assert SetOf(s) == {s[0]};
    }
    assert s == [] ==> SetOf(s) == {};
    if |SetOf(s)| == 1 {
      forall i, j | 0 <= i < |s| && 0 <= j < |s| ensures s[i] == s[j] {
        var rest := SetOf(s) - {s[i]};
        assert s[i] in SetOf(s) && s[j] in SetOf(s);
        assert |rest| == 0;
        assert s[j] !in rest;
      }
    }
  }

  /** `_check_answer_agreement(runs)` */
  method CheckAnswerAgreement(runs: seq<RunDoc>) returns (agree: bool)
    requires forall i :: 0 <= i < |runs| ==> runs[i].summary.Some?
    ensures agree <==> AnswersAgree(runs)
  {
    var normalized: seq<string> := [];
    for i := 0 to |runs|
      invariant |normalized| == i && KeyedAs(runs, normalized)
    {
      var answer := AnswerKey(runs[i]);
      KeyedSnoc(runs, normalized);
      normalized := normalized + [answer];
    }
    OneValue(normalized);
    KeysAgree(runs, normalized);
    agree := |SetOf(normalized)| == 1;
  }

  /** `keys` holds the answer keys of the first `|keys|` runs, in order. */
  ghost predicate KeyedAs(runs: seq<RunDoc>, keys: seq<string>)
    requires forall i :: 0 <= i < |runs| ==> runs[i].summary.Some?
  {
    |keys| <= |runs| && forall p :: 0 <= p < |keys| ==> keys[p] == AnswerKey(runs[p])
  }

  lemma KeyedSnoc(runs: seq<RunDoc>, keys: seq<string>)
    requires forall i :: 0 <= i < |runs| ==> runs[i].summary.Some?
    requires KeyedAs(runs, keys) && |keys| < |runs|
    ensures KeyedAs(runs, keys + [AnswerKey(runs[|keys|])])
  {
    var keys' := keys + [AnswerKey(runs[|keys|])];
    forall q | 0 <= q < |keys'| ensures keys'[q] == AnswerKey(runs[q]) {
      if q < |keys| {
        assert keys'[q] == keys[q];
      } else {
        assert q == |keys| && keys'[q] == AnswerKey(runs[|keys|]);
      }
    }
  }

  lemma KeysAgree(runs: seq<RunDoc>, keys: seq<string>)
    requires forall i :: 0 <= i < |runs| ==> runs[i].summary.Some?
    requires |keys| == |runs| && KeyedAs(runs, keys)
    ensures AnswersAgree(runs) <==> |keys| > 0 && forall i, j :: 0 <= i < |keys| && 0 <= j < |keys| ==> keys[i] == keys[j]
  {
    if AnswersAgree(runs) {
      forall i, j | 0 <= i < |keys| && 0 <= j < |keys| ensures keys[i] == keys[j] {
        assert keys[i] == AnswerKey(runs[i]) && keys[j] == AnswerKey(runs[j]);
      }
    }
    if |keys| > 0 && forall i, j :: 0 <= i < |keys| && 0 <= j < |keys| ==> keys[i] == keys[j] {
      forall i, j | 0 <= i < |runs| && 0 <= j < |runs| ensures AnswerKey(runs[i]) == AnswerKey(runs[j]) {
        assert keys[i] == keys[j];
      }
    }
  }

  // ---------------------------------------------------------------------
  // _cluster_valid_runs
  // ---------------------------------------------------------------------

  /** The `assumption_set` of a run: its assumptions normalised, those that
      normalise to the empty string left out. */
  function AssumptionSet(raws: seq<string>): (r: set<string>)
    ensures "" !in r
    ensures raws == [] ==> r == {}
  {
    set i | 0 <= i < |raws| && NormalizeAssumption(raws[i]) != "" :: NormalizeAssumption(raws[i])
  }

  /** The set holds exactly the non-empty normal forms, each of which is
      its own normal form. */
  lemma AssumptionSetNormalized(raws: seq<string>)
    ensures forall i :: 0 <= i < |raws| && NormalizeAssumption(raws[i]) != "" ==>
      NormalizeAssumption(raws[i]) in AssumptionSet(raws)
    ensures forall a :: a in AssumptionSet(raws) ==> a != "" && NormalizeAssumption(a) == a
  {
    forall a | a in AssumptionSet(raws) ensures a != "" && NormalizeAssumption(a) == a {
      var i :| 0 <= i < |raws| && NormalizeAssumption(raws[i]) != "" && NormalizeAssumption(raws[i]) == a;
      NormalizeIdempotent(raws[i]);
    }
  }

  /** The record `_cluster_valid_runs` builds from a run. */
  function RecordOf(run: RunDoc): RunRecord
    requires run.summary.Some?
  {
    var raws := run.summary.value.assumptions;
    RunRecord(run.runId, run.planEmbedding.GetOr([]), AssumptionSet(raws), raws, run.summary.value.planSteps)
  }

  /** The family document of a `cluster_runs` family. */
  function FamilyDocOf(family: FamilyResult, metrics: Metrics): FamilyDoc {
    FamilyDoc(family.familyId, family.runIds, family.representativeRunId, family.familySignature, metrics)
  }

  /** `_cluster_valid_runs(task_id, runs)`: one document per family of the
      runs' records, all carrying the family count, the robustness status
      and the answer agreement. */
  method ClusterValidRuns(taskId: string, runs: seq<RunDoc>, planThreshold: real, assumptionThreshold: real,
                          cosine: (seq<real>, seq<real>) -> real)
    returns (familyDocs: seq<FamilyDoc>, familyCount: nat, answersAgree: bool,
             ghost records: seq<RunRecord>, ghost groups: seq<seq<nat>>)
    requires forall i :: 0 <= i < |runs| ==> runs[i].summary.Some?
    ensures runs == [] ==> familyDocs == [] && familyCount == 0 && !answersAgree
    ensures |records| == |runs| && forall i :: 0 <= i < |runs| ==> records[i] == RecordOf(runs[i])
    ensures familyCount == |groups| == |familyDocs| && IsPartition(groups, |runs|)
    ensures forall k, x, y :: 0 <= k < |groups| && x in groups[k] && 0 <= y < |runs| ==>
              (y in groups[k] <==> Connected(records, planThreshold, assumptionThreshold, cosine, x, y))
    ensures answersAgree <==> AnswersAgree(runs)
    ensures forall k :: 0 <= k < |groups| ==> ValidGroup(groups[k], |records|)
    ensures forall k :: 0 <= k < |familyDocs| ==>
              familyDocs[k] == FamilyDocOf(MakeFamilies(records, groups)[k],
                                           Metrics(familyCount, Robustness(familyCount), answersAgree))
  {
    if runs == [] {
      return [], 0, false, [], [];
    }
    var runRecords: seq<RunRecord> := [];
    for i := 0 to |runs|
      invariant |runRecords| == i
      invariant forall p :: 0 <= p < i ==> runRecords[p] == RecordOf(runs[p])
    {
      var run := runs[i];
      var embedding := run.planEmbedding.GetOr([]);
      var assumptionsRaw := run.summary.value.assumptions;
      var assumptionSet := AssumptionSet(assumptionsRaw);
      runRecords := runRecords + [RunRecord(run.runId, embedding, assumptionSet, assumptionsRaw,
                                            run.summary.value.planSteps)];
    }
    var families;
    families, groups := ClusterRuns(runRecords, planThreshold, assumptionThreshold, cosine);
    records := runRecords;
    answersAgree := CheckAnswerAgreement(runs);
    familyCount := |families|;
    var metrics := Metrics(familyCount, Robustness(familyCount), answersAgree);
    familyDocs := seq(|families|, k requires 0 <= k < |families| => FamilyDocOf(families[k], metrics));
  }

  // ---------------------------------------------------------------------
  // _cluster_and_update
  // ---------------------------------------------------------------------

  /** `[r for r in runs if r.get("valid")]` */
  function ValidRuns(runs: seq<RunDoc>): (r: seq<RunDoc>)
    ensures |r| <= |runs|
    ensures forall i :: 0 <= i < |r| ==> r[i].valid && r[i] in runs
    ensures forall i :: 0 <= i < |runs| && runs[i].valid ==> runs[i] in r
  {
    if runs == [] then []
    else
      var init := ValidRuns(runs[..|runs| - 1]);
      var last := runs[|runs| - 1];
      assert forall i :: 0 <= i < |runs| - 1 ==> runs[..|runs| - 1][i] == runs[i];
      init + (if last.valid then [last] else [])
  }

  /** The filter keeps the valid runs in their order, each once: it picks
      exactly the positions of the valid runs, in increasing order. */
  lemma {:induction false} ValidRunsInOrder(runs: seq<RunDoc>) returns (idx: seq<nat>)
    ensures PicksInOrder(runs, idx, ValidRuns(runs))
    ensures forall i :: 0 <= i < |runs| ==> (i in idx <==> runs[i].valid)
  {
    if runs == [] {
      idx := [];
    } else {
      var init := runs[..|runs| - 1];
      var last := runs[|runs| - 1];
      var idx0 := ValidRunsInOrder(init);
      PicksSnoc(init, idx0, ValidRuns(init), last, last.valid);
      assert init + [last] == runs;
      idx := idx0 + (if last.valid then [|init|] else []);
      forall i | 0 <= i < |runs| ensures i in idx <==> runs[i].valid {
        if i < |init| {
          assert runs[i] == init[i];
          assert i in idx <==> i in idx0;
        }
      }
    }
  }

  /** `_cluster_and_update(task_id)` on the runs the store holds for the
      task: the families of the valid runs and the fields stored for that task. The
      task is `FRAGILE` exactly when there are valid runs and every two of
      them are joined by a chain of similar pairs. */
  method ClusterAndUpdate(taskId: string, runs: seq<RunDoc>, planThreshold: real, assumptionThreshold: real,
                          cosine: (seq<real>, seq<real>) -> real)
    returns (familiesPayload: seq<FamilyDoc>, update: TaskUpdate,
             ghost records: seq<RunRecord>, ghost groups: seq<seq<nat>>)
    requires forall i :: 0 <= i < |runs| && runs[i].valid ==> runs[i].summary.Some?
    ensures var valid := ValidRuns(runs);
      |records| == |valid| && (forall i :: 0 <= i < |valid| ==> records[i] == RecordOf(valid[i]))
      && IsPartition(groups, |valid|) && |familiesPayload| == |groups|
    ensures update.status == "COMPLETED" && update.totalRuns == |runs| && update.validRuns == |ValidRuns(runs)|
    ensures update.familyCount == |familiesPayload|
    ensures update.robustnessStatus == "FRAGILE" <==>
      |records| > 0 && forall x, y :: 0 <= x < |records| && 0 <= y < |records| ==>
        Connected(records, planThreshold, assumptionThreshold, cosine, x, y)
    ensures update.answersAgree <==> AnswersAgree(ValidRuns(runs))
    ensures update.familyCount == 1 ==> update.robustnessStatus == "FRAGILE"
    ensures update.familyCount != 1 ==> update.robustnessStatus == "ROBUST"
    ensures forall k, x, y :: 0 <= k < |groups| && x in groups[k] && 0 <= y < |records| ==>
              (y in groups[k] <==> Connected(records, planThreshold, assumptionThreshold, cosine, x, y))
    ensures forall k :: 0 <= k < |groups| ==> ValidGroup(groups[k], |records|)
    ensures forall k :: 0 <= k < |familiesPayload| ==>
              familiesPayload[k] == FamilyDocOf(MakeFamilies(records, groups)[k],
                Metrics(update.familyCount, update.robustnessStatus, update.answersAgree))
  {
    var validRuns := ValidRuns(runs);
    var familyCount, answersAgree;
    familiesPayload, familyCount, answersAgree, records, groups :=
      ClusterValidRuns(taskId, validRuns, planThreshold, assumptionThreshold, cosine);
    var robustnessStatus := Robustness(familyCount);
    RobustnessFragile(familyCount);
    OneFamilyIffConnected(records, planThreshold, assumptionThreshold, cosine, groups);
    update := TaskUpdate("COMPLETED", |runs|, |validRuns|, familyCount, robustnessStatus, answersAgree);
  }

  // ---------------------------------------------------------------------
  // _attach_embeddings
  // ---------------------------------------------------------------------

  /** `run["valid"] and run["summary"]` */
  predicate Eligible(d: RunDoc) {
    d.valid && d.summary.Some?
  }

  /** The number of eligible documents. */
  function EligibleCount(ds: seq<RunDoc>): (r: nat)
    ensures r <= |ds|
  {
    if ds == [] then 0
    else EligibleCount(ds[..|ds| - 1]) + (if Eligible(ds[|ds| - 1]) then 1 else 0)
  }

  /** How many eligible documents come before position `i`. */
  function Rank(ds: seq<RunDoc>, i: nat): nat
    requires i <= |ds|
  {
    EligibleCount(ds[..i])
  }

  /** The positions of the eligible documents, in order (`valid_runs`). */
  function EligibleIndices(ds: seq<RunDoc>): (r: seq<nat>)
    ensures |r| == EligibleCount(ds)
    ensures forall k :: 0 <= k < |r| ==> r[k] < |ds| && Eligible(ds[r[k]])
  {
    if ds == [] then []
    else
      var init := ds[..|ds| - 1];
      var r0 := EligibleIndices(init);
      assert forall k :: 0 <= k < |r0| ==> ds[r0[k]] == init[r0[k]];
      r0 + (if Eligible(ds[|ds| - 1]) then [|ds| - 1] else [])
  }

  /** The `k`-th eligible position has rank `k`, and every eligible
      position is listed at its rank. */
  lemma {:induction false} EligibleIndicesRank(ds: seq<RunDoc>)
    ensures forall k :: 0 <= k < |EligibleIndices(ds)| ==> Rank(ds, EligibleIndices(ds)[k]) == k
    ensures forall i :: 0 <= i < |ds| && Eligible(ds[i]) ==>
      Rank(ds, i) < |EligibleIndices(ds)| && EligibleIndices(ds)[Rank(ds, i)] == i
  {
    if ds != [] {
      var n := |ds|;
      var init := ds[..n - 1];
      EligibleIndicesRank(init);
      var idx := EligibleIndices(ds);
      var idx0 := EligibleIndices(init);
      assert forall i :: 0 <= i <= n - 1 ==> ds[..i] == init[..i];
      assert ds[..n - 1] == init;
      forall k | 0 <= k < |idx| ensures Rank(ds, idx[k]) == k {
        if k < |idx0| {
          assert idx[k] == idx0[k];
        }
      }
    }
  }

  /** The text embedded for an eligible document: its plan steps joined by
      line breaks. */
  function PlanText(d: RunDoc): string
    requires d.summary.Some?
  {
    Join("\n", d.summary.value.planSteps)
  }

  /** `plan_texts` */
  function PlanTexts(ds: seq<RunDoc>): (r: seq<string>)
    ensures |r| == EligibleCount(ds)
  {
    var idx := EligibleIndices(ds);
    seq(|idx|, k requires 0 <= k < |idx| => PlanText(ds[idx[k]]))
  }

  /** The documents after `zip(valid_runs, embeddings)`: the eligible
      document of rank `k` gets the `k`-th embedding while there is one,
      every other document is unchanged. */
  function Attached(ds: seq<RunDoc>, es: seq<seq<real>>): (r: seq<RunDoc>)
    ensures |r| == |ds|
  {
    seq(|ds|, i requires 0 <= i < |ds| =>
      if Eligible(ds[i]) && Rank(ds, i) < |es| then ds[i].(planEmbedding := Some(es[Rank(ds, i)])) else ds[i])
  }

  /** Embeddings are handed out in order: the `k`-th eligible document gets
      the `k`-th embedding; the rest are untouched. */
  lemma AttachedInOrder(ds: seq<RunDoc>, es: seq<seq<real>>)
    ensures forall k :: 0 <= k < |EligibleIndices(ds)| && k < |es| ==>
      Attached(ds, es)[EligibleIndices(ds)[k]] == ds[EligibleIndices(ds)[k]].(planEmbedding := Some(es[k]))
    ensures forall i :: 0 <= i < |ds| && !Eligible(ds[i]) ==> Attached(ds, es)[i] == ds[i]
    ensures EligibleCount(ds) == 0 ==> Attached(ds, es) == ds
  {
    EligibleIndicesRank(ds);
    if EligibleCount(ds) == 0 {
      assert forall i :: 0 <= i < |ds| ==> !Eligible(ds[i]);
    }
  }

  /** `_attach_embeddings(run_docs)`: `embed` stands for the embedding
      model's `embed_texts`. */
  method AttachEmbeddings(runDocs: array<RunDoc>, embed: seq<string> -> seq<seq<real>>)
    modifies runDocs
    ensures EligibleCount(old(runDocs[..])) == 0 ==> runDocs[..] == old(runDocs[..])
    ensures EligibleCount(old(runDocs[..])) > 0 ==>
      runDocs[..] == Attached(old(runDocs[..]), embed(PlanTexts(old(runDocs[..]))))
  {
    ghost var d0 := runDocs[..];
    var validRuns := EligibleIndices(runDocs[..]);
    if validRuns == [] {
      return;
    }
    var current := runDocs[..];
    var planTexts := seq(|validRuns|, k requires 0 <= k < |validRuns| => PlanText(current[validRuns[k]]));
    assert planTexts == PlanTexts(d0);
    var embeddings := embed(planTexts);
    EligibleIndicesRank(d0);
    var k := 0;
    while k < |validRuns| && k < |embeddings|
      invariant 0 <= k <= |validRuns|
      invariant forall i :: 0 <= i < runDocs.Length ==>
        runDocs[i] == if Eligible(d0[i]) && Rank(d0, i) < k && Rank(d0, i) < |embeddings|
                      then d0[i].(planEmbedding := Some(embeddings[Rank(d0, i)])) else d0[i]
    {
      runDocs[validRuns[k]] := runDocs[validRuns[k]].(planEmbedding := Some(embeddings[k]));
      k := k + 1;
    }
    assert forall i :: 0 <= i < runDocs.Length ==> runDocs[i] == Attached(d0, embeddings)[i];
  }
}
