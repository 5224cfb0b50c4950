/** Family clustering and robustness of the runs of a task
    (`mprg/task_analysis.py`): each valid run with an id joins the first
    family, in creation order, whose representative run is similar enough,
    or founds a new family. Embedding cosine and `difflib` ratio are given
    functions. */
module TaskAnalysis {
  import opened Wrappers
  import opened Text
  import opened Collections
  import opened Json
  import opened Groups

  /** The fields of a run document that the analysis reads; an absent
      `_id` or `run_id` is `None`, an absent `raw_json` is `null`. */
  datatype Run = Run(
    isValid: Json,
    id: Option<string>,
    runId: Option<string>,
    finalAnswer: Option<string>,
    planSteps: seq<string>,
    assumptions: seq<string>,
    rawJson: Json)

  /** `FamilyResult` */
  datatype FamilyResult = FamilyResult(familyId: string, repRunId: string, runIds: seq<string>)

  /** The two similarity modes, `"embedding"` and `"text"`. */
  datatype Mode = EmbeddingMode | TextMode

  /** The thresholds and the two similarity measures. */
  datatype Config = Config(
    embeddingThreshold: real,
    textThreshold: real,
    cosine: (seq<Json>, seq<Json>) -> real,
    ratio: (string, string) -> real)

  /** The metrics dict of the result. */
  datatype Meta =
    | Insufficient(validRuns: nat)
    | Metrics(validRuns: nat, embeddingCount: nat, textCount: nat, numFamilies: nat, robustnessStatus: string)

  // ---------------------------------------------------------------------
  // Reading a run
  // ---------------------------------------------------------------------

  /** `d.get(key)` on a dict, `None` (`null`) when absent. */
  function Field(d: Json, key: string): Json
    requires d.JObj?
  {
    d.Get(key).GetOr(JNull)
  }

  /** A value that `x or {}` turns into a dict without error. */
  predicate DictOrFalsy(j: Json) {
    j.JObj? || !j.Truthy()
  }

  /** `x or {}` */
  function OrEmpty(j: Json): (d: Json)
    requires DictOrFalsy(j)
    ensures d.JObj?
  {
    if j.Truthy() then j else JObj([], map[])
  }

  /** The shape the two `raw_json` readers need: `raw_json` and its
      `reasoning_summary` are dicts unless falsy, and the fallbacks, when
      they form a list, are strings (`"\n".join` needs them to be). */
  predicate RawShaped(run: Run) {
    DictOrFalsy(run.rawJson) && DictOrFalsy(Field(OrEmpty(run.rawJson), "reasoning_summary"))
  }

  /** `_fallbacks_from_run(run)`: nothing without a `raw_json`; otherwise
      the stored list of fallbacks, if it is one. */
  function FallbacksFromRun(run: Run): (r: seq<Json>)
    requires RawShaped(run)
    ensures !run.rawJson.Truthy() ==> r == []
    ensures r != [] ==>
      run.rawJson.JObj? && Field(run.rawJson, "reasoning_summary").JObj?
      && Field(Field(run.rawJson, "reasoning_summary"), "fallbacks") == JArr(r)
  {
    var summary := OrEmpty(Field(OrEmpty(run.rawJson), "reasoning_summary"));
    var fallbacks := Field(summary, "fallbacks");
    if fallbacks.JArr? then fallbacks.items else []
  }

  predicate SignatureReady(run: Run) {
    RawShaped(run) && forall i :: 0 <= i < |FallbacksFromRun(run)| ==> FallbacksFromRun(run)[i].JStr?
  }

  function FallbackStrings(run: Run): (r: seq<string>)
    requires SignatureReady(run)
    ensures |r| == |FallbacksFromRun(run)|
  {
    seq(|FallbacksFromRun(run)|, i requires 0 <= i < |FallbacksFromRun(run)| => FallbacksFromRun(run)[i].s)
  }

  /** `_embedding_from_run(run)`: the embedding list when it is a non-empty list, else `[]`. */
  function EmbeddingFromRun(run: Run): (r: seq<Json>)
    requires DictOrFalsy(run.rawJson)
    ensures !run.rawJson.Truthy() ==> r == []
    ensures r != [] ==> run.rawJson.JObj? && Field(run.rawJson, "embedding_vector") == JArr(r)
  {
    var embedding := Field(OrEmpty(run.rawJson), "embedding_vector");
    if embedding.JArr? && embedding.items != [] then embedding.items else []
  }

  // ---------------------------------------------------------------------
  // _build_signature_text
  // ---------------------------------------------------------------------

  /** The four parts, before the empty ones are dropped. */
  function SignatureParts(run: Run): (r: seq<string>)
    requires SignatureReady(run)
  {
    [Strip(run.finalAnswer.GetOr("")),
     Join("\n", run.planSteps),
     Join("\n", run.assumptions),
     Join("\n", FallbackStrings(run))]
  }

  /** `[part for part in parts if part]` */
  function NonEmpty(parts: seq<string>): (r: seq<string>)
    ensures forall k :: 0 <= k < |r| ==> r[k] != ""
  {
    if parts == [] then []
    else NonEmpty(parts[..|parts| - 1]) + (if parts[|parts| - 1] != "" then [parts[|parts| - 1]] else [])
  }

  /** `_build_signature_text(run)`: empty exactly when the stripped answer,
      the steps, the assumptions and the fallbacks all join to nothing. */
  function BuildSignatureText(run: Run): (r: string)
    requires SignatureReady(run)
    ensures r == "" <==> forall k :: 0 <= k < 4 ==> SignatureParts(run)[k] == ""
  {
    NonEmptyAll(SignatureParts(run));
    JoinEmpty(NonEmpty(SignatureParts(run)));
    Join("\n", NonEmpty(SignatureParts(run)))
  }

  /** Non-empty parts join to nothing only when there are none. */
  lemma JoinEmpty(parts: seq<string>)
    requires forall k :: 0 <= k < |parts| ==> parts[k] != ""
    ensures Join("\n", parts) == "" <==> parts == []
  {
    if parts != [] {
      JoinHead("\n", parts);
    }
  }

  /** The line groups of the signature: the stripped answer, the steps,
      the assumptions and the fallbacks. */
  function LineGroups(run: Run): seq<seq<string>>
    requires SignatureReady(run)
  {
    [[Strip(run.finalAnswer.GetOr(""))], run.planSteps, run.assumptions, FallbackStrings(run)]
  }

  /** The groups whose joined text is not empty. */
  function KeptGroups(gs: seq<seq<string>>): (r: seq<seq<string>>)
    ensures forall k :: 0 <= k < |r| ==> Join("\n", r[k]) != ""
  {
    if gs == [] then []
    else KeptGroups(gs[..|gs| - 1]) + (if Join("\n", gs[|gs| - 1]) != "" then [gs[|gs| - 1]] else [])
  }

  function Joined(gs: seq<seq<string>>): (r: seq<string>)
    ensures |r| == |gs|
  {
    seq(|gs|, k requires 0 <= k < |gs| => Join("\n", gs[k]))
  }

  lemma {:induction false} NonEmptyJoined(gs: seq<seq<string>>)
    ensures NonEmpty(Joined(gs)) == Joined(KeptGroups(gs))
  {
    if gs != [] {
      var init := gs[..|gs| - 1];
      NonEmptyJoined(init);
      assert Joined(gs)[..|gs| - 1] == Joined(init);
      var kept := KeptGroups(init);
      if Join("\n", gs[|gs| - 1]) != "" {
        assert Joined(kept + [gs[|gs| - 1]]) == Joined(kept) + [Join("\n", gs[|gs| - 1])];
      }
    }
  }

  /** Joining the joined groups joins all their lines. */
  lemma {:induction false} JoinGroups(gs: seq<seq<string>>)
    requires gs != [] && forall k :: 0 <= k < |gs| ==> gs[k] != []
    ensures Join("\n", Joined(gs)) == Join("\n", Flatten(gs))
  {
    var init := gs[..|gs| - 1];
    var last := gs[|gs| - 1];
    if |gs| == 1 {
      assert init == [] && gs == [last];
      assert Flatten(gs) == last by {
        assert Flatten(gs) == Flatten(init) + last;
        assert Flatten(init) == [];
      }
      assert Joined(gs) == [Join("\n", last)];
      assert Join("\n", Joined(gs)) == Join("\n", last);
    } else {
      JoinGroups(init);
      assert Joined(gs) == Joined(init) + [Join("\n", last)];
      JoinAppend("\n", Joined(init), Join("\n", last));
      assert Flatten(init) != [] by {
        assert Flatten(init) == Flatten(init[..|init| - 1]) + init[|init| - 1];
      }
      JoinConcat("\n", Flatten(init), last);
    }
  }

  /** The signature is empty exactly when all four parts are; otherwise,
      when no part's lines contain a line break, splitting it at line
      breaks gives back the lines of the non-empty parts in order: answer,
      steps, assumptions, fallbacks. */
  lemma SignatureLines(run: Run)
    requires SignatureReady(run)
    ensures BuildSignatureText(run) == "" <==> forall k :: 0 <= k < 4 ==> SignatureParts(run)[k] == ""
    ensures (forall k, t :: 0 <= k < 4 && 0 <= t < |LineGroups(run)[k]| ==> Free(LineGroups(run)[k][t], '\n'))
            && BuildSignatureText(run) != ""
            ==> Split(BuildSignatureText(run), '\n') == Flatten(KeptGroups(LineGroups(run)))
  {
    var gs := LineGroups(run);
    if (forall k, t :: 0 <= k < 4 && 0 <= t < |gs[k]| ==> Free(gs[k][t], '\n')) && BuildSignatureText(run) != "" {
      SignatureSplits(run);
    }
  }

  /** Each group of lines, joined, is the matching part. */
  lemma GroupsJoinToParts(run: Run)
    requires SignatureReady(run)
    ensures Joined(LineGroups(run)) == SignatureParts(run)
  {
    var gs := LineGroups(run);
    var parts := SignatureParts(run);
    assert Join("\n", gs[0]) == parts[0];
    assert forall k :: 0 <= k < 4 ==> Joined(gs)[k] == parts[k];
  }

  /** The second half of `SignatureLines`, under its condition. */
  lemma SignatureSplits(run: Run)
    requires SignatureReady(run)
    requires forall k, t :: 0 <= k < 4 && 0 <= t < |LineGroups(run)[k]| ==> Free(LineGroups(run)[k][t], '\n')
    requires BuildSignatureText(run) != ""
    ensures Split(BuildSignatureText(run), '\n') == Flatten(KeptGroups(LineGroups(run)))
  {
    var gs := LineGroups(run);
    GroupsJoinToParts(run);
    NonEmptyJoined(gs);
    var kept := KeptGroups(gs);
    KeptMembers(gs);
    NonEmptyAll(SignatureParts(run));
    assert kept != [];
    forall k | 0 <= k < |kept| ensures kept[k] != [] {
      assert Join("\n", kept[k]) != "";
    }
    JoinGroups(kept);
    KeptFree(gs);
    assert Flatten(kept) != [] by {
      assert Flatten(kept) == Flatten(kept[..|kept| - 1]) + kept[|kept| - 1];
    }
    JoinSplit(Flatten(kept), '\n');
  }

  /** Lines free of line breaks stay free of them once the groups are
      filtered and flattened. */
  lemma KeptFree(gs: seq<seq<string>>)
    requires forall k, t :: 0 <= k < |gs| && 0 <= t < |gs[k]| ==> Free(gs[k][t], '\n')
    ensures forall t :: 0 <= t < |Flatten(KeptGroups(gs))| ==> Free(Flatten(KeptGroups(gs))[t], '\n')
  {
    var kept := KeptGroups(gs);
    KeptMembers(gs);
    forall t | 0 <= t < |Flatten(kept)| ensures Free(Flatten(kept)[t], '\n') {
      var x := Flatten(kept)[t];
      FlattenMembership(kept, x);
      var k :| 0 <= k < |kept| && x in kept[k];
      assert kept[k] in gs;
      var k2 :| 0 <= k2 < |gs| && gs[k2] == kept[k];
      var t2 :| 0 <= t2 < |gs[k2]| && gs[k2][t2] == x;
    }
  }

  /** Every kept group is one of the groups. */
  lemma {:induction false} KeptMembers(gs: seq<seq<string>>)
    ensures forall g :: g in KeptGroups(gs) ==> g in gs
  {
    if gs != [] {
      KeptMembers(gs[..|gs| - 1]);
    }
  }

  /** The filtered parts are empty exactly when every part is. */
  lemma {:induction false} NonEmptyAll(parts: seq<string>)
    ensures NonEmpty(parts) == [] <==> forall k :: 0 <= k < |parts| ==> parts[k] == ""
  {
    if parts != [] {
      NonEmptyAll(parts[..|parts| - 1]);
      assert forall k :: 0 <= k < |parts| - 1 ==> parts[..|parts| - 1][k] == parts[k];
    }
  }

  // ---------------------------------------------------------------------
  // Run ids, lookup and similarity
  // ---------------------------------------------------------------------

  /** `run.get("_id") or run.get("run_id")`, with `""` for a falsy id. */
  function RunKey(run: Run): string {
    if run.id.Some? && run.id.value != "" then run.id.value else run.runId.GetOr("")
  }

  /** `[run for run in runs if run.get("is_valid")]` */
  function ValidRuns(runs: seq<Run>): (r: seq<Run>)
    ensures forall q :: 0 <= q < |r| ==> r[q] in runs && r[q].isValid.Truthy()
    ensures forall run :: run in runs && run.isValid.Truthy() ==> run in r
  {
    if runs == [] then []
    else
      var init := runs[..|runs| - 1];
      var last := runs[|runs| - 1];
      assert forall run :: run in runs ==> run in init || run == last;
      ValidRuns(init) + (if last.isValid.Truthy() then [last] else [])
  }

  /** The filter keeps the valid runs in their order, each once: it picks
      exactly the positions of the valid runs, in increasing order. */
  lemma {:induction false} ValidRunsInOrder(runs: seq<Run>) returns (idx: seq<nat>)
    ensures PicksInOrder(runs, idx, ValidRuns(runs))
    ensures forall i :: 0 <= i < |runs| ==> (i in idx <==> runs[i].isValid.Truthy())
  {
    if runs == [] {
      idx := [];
    } else {
      var init := runs[..|runs| - 1];
      var last := runs[|runs| - 1];
      var idx0 := ValidRunsInOrder(init);
      PicksSnoc(init, idx0, ValidRuns(init), last, last.isValid.Truthy());
      assert init + [last] == runs;
      idx := idx0 + (if last.isValid.Truthy() then [|init|] else []);
      forall i | 0 <= i < |runs| ensures i in idx <==> runs[i].isValid.Truthy() {
        if i < |init| {
          assert runs[i] == init[i];
          assert i in idx <==> i in idx0;
        }
      }
    }
  }

  predicate Matches(run: Run, id: string) {
    run.id == Some(id) || run.runId == Some(id)
  }

  /** The position of the first run whose `_id` or `run_id` is `id`. */
  function RunIndex(runs: seq<Run>, id: string): (r: Option<nat>)
    ensures r.Some? ==> r.value < |runs| && Matches(runs[r.value], id)
                        && forall q :: 0 <= q < r.value ==> !Matches(runs[q], id)
    ensures r.None? ==> forall q :: 0 <= q < |runs| ==> !Matches(runs[q], id)
  {
    if runs == [] then None
    else if Matches(runs[0], id) then Some(0)
    else match RunIndex(runs[1..], id)
      case None => None
      case Some(q) => Some(q + 1)
  }

  /** `_find_run_by_id(runs, run_id)`, as the position of the run found. */
  method FindRunById(runs: seq<Run>, id: string) returns (r: Option<nat>)
    ensures r == RunIndex(runs, id)
  {
    for q := 0 to |runs|
      invariant forall q' :: 0 <= q' < q ==> !Matches(runs[q'], id)
    {
      if Matches(runs[q], id) {
        return Some(q);
      }
    }
    return None;
  }

  /** A run with an id matches its own id, so looking up a family's
      representative always finds a run. */
  lemma RepresentativeFound(runs: seq<Run>, s: nat)
    requires s < |runs| && RunKey(runs[s]) != ""
    ensures RunIndex(runs, RunKey(runs[s])).Some?
    ensures RunIndex(runs, RunKey(runs[s])).value <= s
  {
    assert Matches(runs[s], RunKey(runs[s]));
  }

  /** `cache.get(key, "")` */
  function CacheGet(cache: map<string, string>, key: string): string {
    if key in cache then cache[key] else ""
  }

  /** `_similarity(run_a, run_b, signature_cache)` */
  function Similarity(a: Run, b: Run, cache: map<string, string>, cfg: Config): (r: (real, Mode))
    requires DictOrFalsy(a.rawJson) && DictOrFalsy(b.rawJson)
    ensures r.1 == EmbeddingMode <==> EmbeddingFromRun(a) != [] && EmbeddingFromRun(b) != []
    ensures r.1 == EmbeddingMode ==> r.0 == cfg.cosine(EmbeddingFromRun(a), EmbeddingFromRun(b))
    ensures r.1 == TextMode ==> r.0 == cfg.ratio(CacheGet(cache, RunKey(a)), CacheGet(cache, RunKey(b)))
  {
    var embA := EmbeddingFromRun(a);
    var embB := EmbeddingFromRun(b);
    if embA != [] && embB != [] then (cfg.cosine(embA, embB), EmbeddingMode)
    else (cfg.ratio(CacheGet(cache, RunKey(a)), CacheGet(cache, RunKey(b))), TextMode)
  }

  /** `embedding_threshold if mode == "embedding" else text_threshold` */
  function Threshold(mode: Mode, cfg: Config): real {
    if mode == EmbeddingMode then cfg.embeddingThreshold else cfg.textThreshold
  }

  // ---------------------------------------------------------------------
  // The specification of the first-fit loop
  // ---------------------------------------------------------------------

  /** Every run before `i` that has an id can be read by
      `_build_signature_text` and `_embedding_from_run` without raising. */
  predicate ReadyBefore(valid: seq<Run>, i: nat) {
    forall q :: 0 <= q < i && q < |valid| && RunKey(valid[q]) != "" ==> SignatureReady(valid[q])
  }

  /** `signature_cache` once the runs before `i` have been visited. */
  function CacheAt(valid: seq<Run>, i: nat): (m: map<string, string>)
    requires i <= |valid| && ReadyBefore(valid, i)
    ensures "" !in m
  {
    if i == 0 then map[]
    else
      var key := RunKey(valid[i - 1]);
      if key == "" then CacheAt(valid, i - 1) else CacheAt(valid, i - 1)[key := BuildSignatureText(valid[i - 1])]
  }

  /** Run `p`, compared with the run found for `repId` while `p` is being
      visited, clears the threshold of the mode used. */
  predicate Joins(valid: seq<Run>, p: nat, repId: string, cfg: Config)
    requires p < |valid| && ReadyBefore(valid, p + 1)
  {
    match RunIndex(valid, repId)
    case None => false
    case Some(r) =>
      DictOrFalsy(valid[p].rawJson) && DictOrFalsy(valid[r].rawJson) &&
      var sm := Similarity(valid[p], valid[r], CacheAt(valid, p + 1), cfg);
      sm.0 >= Threshold(sm.1, cfg)
  }

  function Keys(valid: seq<Run>): (r: seq<string>)
    ensures |r| == |valid| && forall q :: 0 <= q < |valid| ==> r[q] == RunKey(valid[q])
  {
    seq(|valid|, q requires 0 <= q < |valid| => RunKey(valid[q]))
  }

  /** `family` is the `k`-th group `g`: named `family_{k+1}`, represented
      by the first run of `g`, listing the ids of its runs in order. */
  ghost predicate MirrorsAt(valid: seq<Run>, family: FamilyResult, g: seq<nat>, k: nat) {
    g != [] && (forall t :: 0 <= t < |g| ==> g[t] < |valid|)
    && family == FamilyResult("family_" + NatToString(k + 1), RunKey(valid[g[0]]), Pick(Keys(valid), g))
  }

  /** Every family mirrors the group at its place. */
  ghost predicate Mirrors(valid: seq<Run>, families: seq<FamilyResult>, groups: seq<seq<nat>>) {
    |families| == |groups|
    && forall k :: 0 <= k < |groups| ==> MirrorsAt(valid, families[k], groups[k], k)
  }

  /** The runs that take part: those with an id. */
  function HasId(valid: seq<Run>): nat -> bool {
    (q: nat) => q < |valid| && RunKey(valid[q]) != ""
  }

  /** Run `q` joins the family represented by run `r`. */
  function JoinsRun(valid: seq<Run>, cfg: Config): (nat, nat) -> bool {
    (q: nat, r: nat) => q < |valid| && r < |valid| && ReadyBefore(valid, q + 1) && Joins(valid, q, RunKey(valid[r]), cfg)
  }

  /** The groups hold exactly the positions below `i` of the runs with an
      id, each once, each group in increasing order, the groups in order of
      their first position. */
  ghost predicate Placed(valid: seq<Run>, i: nat, groups: seq<seq<nat>>) {
    PlacedBy(groups, i, |valid|, HasId(valid))
  }

  /** The first-fit rule: every run failed the representatives of all
      earlier families, and a run that is not its family's first cleared
      its family's representative. */
  ghost predicate FirstFit(valid: seq<Run>, groups: seq<seq<nat>>, cfg: Config) {
    FirstFitBy(groups, JoinsRun(valid, cfg))
  }

  /** The number of representative comparisons the loop makes for these
      groups: a run of the `k`-th family (from 0) is compared with the
      representatives of families `0 .. k`, its founder with those of
      families `0 .. k - 1` only. */
  function ComparisonCount(groups: seq<seq<nat>>): int {
    if groups == [] then 0
    else ComparisonCount(groups[..|groups| - 1]) + GroupComparisons(|groups| - 1, |groups[|groups| - 1]|)
  }

  /** The comparisons made for a family `k` of `len >= 1` runs: `k` for its
      founder and `k + 1` for each later run. */
  function GroupComparisons(k: nat, len: nat): nat {
    if len <= 1 then k else GroupComparisons(k, len - 1) + k + 1
  }

  /** The mode `_similarity` uses for run `q` and the run found for
      `repId`: embedding when both embeddings are non-empty lists. */
  function CompareMode(valid: seq<Run>, q: nat, repId: string): Mode {
    if q >= |valid| then TextMode
    else match RunIndex(valid, repId)
      case None => TextMode
      case Some(r) =>
        if DictOrFalsy(valid[q].rawJson) && DictOrFalsy(valid[r].rawJson)
           && EmbeddingFromRun(valid[q]) != [] && EmbeddingFromRun(valid[r]) != []
        then EmbeddingMode else TextMode
  }

  /** How many of the first `m` representatives `reps` run `q` is compared
      with in `mode`. */
  function Against(valid: seq<Run>, q: nat, reps: seq<string>, m: nat, mode: Mode): (c: nat)
    ensures c <= m
  {
    if m == 0 || |reps| < m then 0
    else Against(valid, q, reps, m - 1, mode) + (if CompareMode(valid, q, reps[m - 1]) == mode then 1 else 0)
  }

  /** The representative ids of the groups: the id of each group's first run. */
  function RepKeys(valid: seq<Run>, groups: seq<seq<nat>>): (r: seq<string>)
    ensures |r| == |groups|
  {
    seq(|groups|, k requires 0 <= k < |groups| =>
      if groups[k] != [] && groups[k][0] < |valid| then RunKey(valid[groups[k][0]]) else "")
  }

  /** The comparisons made in `mode` for these groups, against the
      representatives `reps`: a run of the `k`-th family is compared with
      the representatives of families `0 .. k`, its founder with those of
      families `0 .. k - 1` only. */
  function ModeCount(valid: seq<Run>, groups: seq<seq<nat>>, reps: seq<string>, mode: Mode): nat {
    if groups == [] then 0
    else ModeCount(valid, groups[..|groups| - 1], reps, mode)
         + GroupModes(valid, groups[|groups| - 1], |groups| - 1, reps, mode)
  }

  /** The comparisons made in `mode` for the runs of group `g`, the `k`-th family. */
  function GroupModes(valid: seq<Run>, g: seq<nat>, k: nat, reps: seq<string>, mode: Mode): nat {
    if g == [] then 0
    else GroupModes(valid, g[..|g| - 1], k, reps, mode)
         + Against(valid, g[|g| - 1], reps, if |g| == 1 then k else k + 1, mode)
  }

  // ---------------------------------------------------------------------
  // Steps of the loop
  // ---------------------------------------------------------------------

  /** A run without an id, or one whose `raw_json` can be read, extends
      the readable prefix. */
  lemma ReadyStep(valid: seq<Run>, p: nat)
    requires p < |valid| && ReadyBefore(valid, p)
    requires RunKey(valid[p]) != "" ==> SignatureReady(valid[p])
    ensures ReadyBefore(valid, p + 1)
  {
  }

  lemma CacheStep(valid: seq<Run>, p: nat)
    requires p < |valid| && ReadyBefore(valid, p + 1)
    ensures CacheAt(valid, p + 1) ==
      if RunKey(valid[p]) == "" then CacheAt(valid, p) else CacheAt(valid, p)[RunKey(valid[p]) := BuildSignatureText(valid[p])]
  {
  }

  lemma {:induction false} CountUpdate(groups: seq<seq<nat>>, k: nat, g: seq<nat>)
    requires k < |groups| && groups[k] != [] && |g| == |groups[k]| + 1
    ensures ComparisonCount(groups[k := g]) == ComparisonCount(groups) + k + 1
  {
    var last := |groups| - 1;
    if k == last {
      assert groups[k := g][..last] == groups[..last];
    } else {
      CountUpdate(groups[..last], k, g);
      assert groups[k := g][..last] == groups[..last][k := g];
    }
  }

  lemma CountSeed(groups: seq<seq<nat>>, p: nat)
    ensures ComparisonCount(groups + [[p]]) == ComparisonCount(groups) + |groups|
  {
    assert (groups + [[p]])[..|groups|] == groups;
  }

  /** Counting in one mode ignores representatives beyond the groups. */
  lemma {:induction false} ModeCountExtend(valid: seq<Run>, groups: seq<seq<nat>>, reps: seq<string>, extra: seq<string>, mode: Mode)
    requires |groups| <= |reps|
    ensures ModeCount(valid, groups, reps + extra, mode) == ModeCount(valid, groups, reps, mode)
  {
    if groups != [] {
      var last := |groups| - 1;
      ModeCountExtend(valid, groups[..last], reps, extra, mode);
      GroupModesExtend(valid, groups[last], last, reps, extra, mode);
    }
  }

  lemma {:induction false} GroupModesExtend(valid: seq<Run>, g: seq<nat>, k: nat, reps: seq<string>, extra: seq<string>, mode: Mode)
    requires k < |reps|
    ensures GroupModes(valid, g, k, reps + extra, mode) == GroupModes(valid, g, k, reps, mode)
  {
    if g != [] {
      GroupModesExtend(valid, g[..|g| - 1], k, reps, extra, mode);
      AgainstExtend(valid, g[|g| - 1], reps, extra, if |g| == 1 then k else k + 1, mode);
    }
  }

  lemma {:induction false} AgainstExtend(valid: seq<Run>, q: nat, reps: seq<string>, extra: seq<string>, m: nat, mode: Mode)
    requires m <= |reps|
    ensures Against(valid, q, reps + extra, m, mode) == Against(valid, q, reps, m, mode)
  {
    if m > 0 {
      AgainstExtend(valid, q, reps, extra, m - 1, mode);
      assert (reps + extra)[m - 1] == reps[m - 1];
    }
  }

  /** Run `p` founding family `|groups|` is compared with every earlier representative. */
  lemma ModeCountSeed(valid: seq<Run>, groups: seq<seq<nat>>, reps: seq<string>, p: nat, mode: Mode)
    ensures ModeCount(valid, groups + [[p]], reps, mode)
            == ModeCount(valid, groups, reps, mode) + Against(valid, p, reps, |groups|, mode)
  {
    assert (groups + [[p]])[..|groups|] == groups;
    assert [p][..0] == [];
    assert GroupModes(valid, [p], |groups|, reps, mode) == Against(valid, p, reps, |groups|, mode);
  }

  /** Run `p` joining family `k` is compared with the representatives of families `0 .. k`. */
  lemma {:induction false} ModeCountJoin(valid: seq<Run>, groups: seq<seq<nat>>, reps: seq<string>, k: nat, p: nat, mode: Mode)
    requires k < |groups| && groups[k] != []
    ensures ModeCount(valid, groups[k := groups[k] + [p]], reps, mode)
            == ModeCount(valid, groups, reps, mode) + Against(valid, p, reps, k + 1, mode)
  {
    var last := |groups| - 1;
    var g := groups[k] + [p];
    if k == last {
      assert groups[k := g][..last] == groups[..last];
      assert g[..|g| - 1] == groups[k];
    } else {
      ModeCountJoin(valid, groups[..last], reps, k, p, mode);
      assert groups[k := g][..last] == groups[..last][k := g];
    }
  }

  /** The representatives are unchanged when a run joins a family, and
      grow by the founder when a family is founded. */
  lemma RepKeysJoin(valid: seq<Run>, groups: seq<seq<nat>>, k: nat, p: nat)
    requires k < |groups| && groups[k] != []
    ensures RepKeys(valid, groups[k := groups[k] + [p]]) == RepKeys(valid, groups)
  {
  }

  lemma RepKeysSeed(valid: seq<Run>, groups: seq<seq<nat>>, p: nat)
    requires p < |valid|
    ensures RepKeys(valid, groups + [[p]]) == RepKeys(valid, groups) + [RunKey(valid[p])]
  {
  }

  /** Appending run `p` to family `k` keeps the families mirroring the groups. */
  lemma MirrorsJoin(valid: seq<Run>, p: nat, families: seq<FamilyResult>, groups: seq<seq<nat>>, k: nat)
    requires p < |valid| && Mirrors(valid, families, groups) && k < |groups|
    ensures Mirrors(valid, families[k := families[k].(runIds := families[k].runIds + [RunKey(valid[p])])],
                    groups[k := groups[k] + [p]])
  {
    var g := groups[k] + [p];
    assert Pick(Keys(valid), g) == Pick(Keys(valid), groups[k]) + [RunKey(valid[p])];
    assert MirrorsAt(valid, families[k].(runIds := families[k].runIds + [RunKey(valid[p])]), g, k);
  }

  /** A new family for run `p` keeps the families mirroring the groups. */
  lemma MirrorsSeed(valid: seq<Run>, p: nat, families: seq<FamilyResult>, groups: seq<seq<nat>>)
    requires p < |valid| && Mirrors(valid, families, groups)
    ensures var key := RunKey(valid[p]);
      Mirrors(valid, families + [FamilyResult("family_" + NatToString(|families| + 1), key, [key])], groups + [[p]])
  {
    var key := RunKey(valid[p]);
    SeedMirrors(valid, p, |groups|);
    MirrorsSnoc(valid, families, groups, FamilyResult("family_" + NatToString(|families| + 1), key, [key]), [p]);
  }

  /** The family founded by run `p` mirrors the group holding only `p`. */
  lemma SeedMirrors(valid: seq<Run>, p: nat, k: nat)
    requires p < |valid|
    ensures var key := RunKey(valid[p]);
      MirrorsAt(valid, FamilyResult("family_" + NatToString(k + 1), key, [key]), [p], k)
  {
    assert Pick(Keys(valid), [p]) == [RunKey(valid[p])];
  }

  lemma MirrorsSnoc(valid: seq<Run>, families: seq<FamilyResult>, groups: seq<seq<nat>>, f: FamilyResult, g: seq<nat>)
    requires Mirrors(valid, families, groups) && MirrorsAt(valid, f, g, |groups|)
    ensures Mirrors(valid, families + [f], groups + [g])
  {
    var fs, gs := families + [f], groups + [g];
    forall k | 0 <= k < |gs| ensures MirrorsAt(valid, fs[k], gs[k], k) {
      if k < |groups| {
        assert fs[k] == families[k] && gs[k] == groups[k];
      }
    }
  }

  /** What the search for a family found, in terms of the groups. */
  /** The state of the first-fit loop once the runs before `p` are visited. */
  ghost predicate Progress(valid: seq<Run>, p: nat, families: seq<FamilyResult>, groups: seq<seq<nat>>, cfg: Config) {
    Mirrors(valid, families, groups) && Placed(valid, p, groups) && FirstFit(valid, groups, cfg)
  }

  /** A run without an id is passed over. */
  lemma SkipStep(valid: seq<Run>, p: nat, families: seq<FamilyResult>, groups: seq<seq<nat>>, cfg: Config)
    requires p < |valid| && RunKey(valid[p]) == "" && Progress(valid, p, families, groups, cfg)
    ensures Progress(valid, p + 1, families, groups, cfg)
  {
    PlacedSkip(groups, p, |valid|, HasId(valid));
  }

  /** Run `p` joins family `k` after failing every earlier one. */
  lemma JoinStep(valid: seq<Run>, p: nat, families: seq<FamilyResult>, groups: seq<seq<nat>>, k: nat, cfg: Config)
    requires p < |valid| && ReadyBefore(valid, p + 1) && RunKey(valid[p]) != "" && Progress(valid, p, families, groups, cfg)
    requires k < |families|
    requires forall k' :: 0 <= k' < k ==> !Joins(valid, p, families[k'].repRunId, cfg)
    requires Joins(valid, p, families[k].repRunId, cfg)
    ensures Progress(valid, p + 1, families[k := families[k].(runIds := families[k].runIds + [RunKey(valid[p])])],
                     AddTo(groups, k, p), cfg)
    ensures ComparisonCount(AddTo(groups, k, p)) == ComparisonCount(groups) + k + 1
  {
    assert MirrorsAt(valid, families[k], groups[k], k);
    CountUpdate(groups, k, groups[k] + [p]);
    SearchFacts(valid, p, families, groups, k, cfg);
    MirrorsJoin(valid, p, families, groups, k);
    PlacedJoin(groups, p, |valid|, HasId(valid), k);
    FirstFitJoin(groups, JoinsRun(valid, cfg), k, p);
  }

  /** Run `p`, which failed every family, founds a new one. */
  lemma SeedStep(valid: seq<Run>, p: nat, families: seq<FamilyResult>, groups: seq<seq<nat>>, cfg: Config)
    requires p < |valid| && ReadyBefore(valid, p + 1) && RunKey(valid[p]) != "" && Progress(valid, p, families, groups, cfg)
    requires forall k' :: 0 <= k' < |families| ==> !Joins(valid, p, families[k'].repRunId, cfg)
    ensures var key := RunKey(valid[p]);
      Progress(valid, p + 1, families + [FamilyResult("family_" + NatToString(|families| + 1), key, [key])],
               groups + [[p]], cfg)
    ensures ComparisonCount(groups + [[p]]) == ComparisonCount(groups) + |families|
  {
    CountSeed(groups, p);
    SearchFacts(valid, p, families, groups, |families|, cfg);
    MirrorsSeed(valid, p, families, groups);
    PlacedSeed(groups, p, |valid|, HasId(valid));
    FirstFitSeed(groups, JoinsRun(valid, cfg), p);
  }

  lemma SearchFacts(valid: seq<Run>, p: nat, families: seq<FamilyResult>, groups: seq<seq<nat>>, k: nat, cfg: Config)
    requires p < |valid| && ReadyBefore(valid, p + 1) && Mirrors(valid, families, groups) && k <= |groups|
    requires forall k' :: 0 <= k' < k ==> !Joins(valid, p, families[k'].repRunId, cfg)
    ensures forall k' :: 0 <= k' < k && groups[k'] != [] ==> !JoinsRun(valid, cfg)(p, groups[k'][0])
    ensures k < |groups| && Joins(valid, p, families[k].repRunId, cfg) ==> JoinsRun(valid, cfg)(p, groups[k][0])
  {
    NoneJoinedBefore(valid, p, families, groups, k, cfg);
    if k < |groups| {
      RepOfGroup(valid, families, groups, k);
    }
  }

  /** The first half of `SearchFacts`. */
  lemma NoneJoinedBefore(valid: seq<Run>, p: nat, families: seq<FamilyResult>, groups: seq<seq<nat>>, k: nat,
                         cfg: Config)
    requires p < |valid| && ReadyBefore(valid, p + 1) && Mirrors(valid, families, groups) && k <= |groups|
    requires forall k' :: 0 <= k' < k ==> !Joins(valid, p, families[k'].repRunId, cfg)
    ensures forall k' :: 0 <= k' < k && groups[k'] != [] ==> !JoinsRun(valid, cfg)(p, groups[k'][0])
  {
    forall k' | 0 <= k' < k && groups[k'] != []
      ensures !JoinsRun(valid, cfg)(p, groups[k'][0])
    {
      RepOfGroup(valid, families, groups, k');
    }
  }

  lemma RepOfGroup(valid: seq<Run>, families: seq<FamilyResult>, groups: seq<seq<nat>>, k: nat)
    requires Mirrors(valid, families, groups) && k < |groups|
    ensures groups[k] != [] && groups[k][0] < |valid| && families[k].repRunId == RunKey(valid[groups[k][0]])
  {
    assert MirrorsAt(valid, families[k], groups[k], k);
  }

  // ---------------------------------------------------------------------
  // compute_families_and_robustness
  // ---------------------------------------------------------------------

  /** The representative of every family is found among the runs, at a
      run visited earlier that has an id. */
  lemma RepresentativesFound(valid: seq<Run>, p: nat, families: seq<FamilyResult>, groups: seq<seq<nat>>, cfg: Config)
    requires Progress(valid, p, families, groups, cfg)
    ensures forall k :: 0 <= k < |families| ==> Found(valid, families[k].repRunId, p)
  {
    forall k | 0 <= k < |families|
      ensures Found(valid, families[k].repRunId, p)
    {
      assert MirrorsAt(valid, families[k], groups[k], k);
      assert HasId(valid)(groups[k][0]);
      RepresentativeFound(valid, groups[k][0]);
    }
  }

  /** Looking up `id` finds a run before `p` that has an id. */
  predicate Found(valid: seq<Run>, id: string, p: nat) {
    var r := RunIndex(valid, id);
    r.Some? && r.value < p && RunKey(valid[r.value]) != ""
  }

  /** Comparing run `p` with the run found for `repId` decides `Joins`. */
  lemma JoinsDecided(valid: seq<Run>, p: nat, repId: string, r: nat, cache: map<string, string>, cfg: Config)
    requires p < |valid| && ReadyBefore(valid, p + 1) && cache == CacheAt(valid, p + 1) && RunIndex(valid, repId) == Some(r)
    requires DictOrFalsy(valid[p].rawJson) && DictOrFalsy(valid[r].rawJson)
    ensures var sm := Similarity(valid[p], valid[r], cache, cfg);
      Joins(valid, p, repId, cfg) <==> sm.0 >= Threshold(sm.1, cfg)
  {
  }

  /** The representative ids of the families, in creation order. */
  function RepIds(families: seq<FamilyResult>): (r: seq<string>)
    ensures |r| == |families| && forall k :: 0 <= k < |families| ==> r[k] == families[k].repRunId
  {
    seq(|families|, k requires 0 <= k < |families| => families[k].repRunId)
  }

  /** The two mode counters after comparing run `p` with the first `m`
      representatives `reps`, starting from `e0` and `t0`. */
  predicate Tallied(valid: seq<Run>, p: nat, reps: seq<string>, m: nat, e0: nat, t0: nat, e: nat, t: nat) {
    e == e0 + Against(valid, p, reps, m, EmbeddingMode)
    && t == t0 + Against(valid, p, reps, m, TextMode)
  }

  /** Each comparison is in one of the two modes. */
  lemma {:induction false} AgainstSum(valid: seq<Run>, p: nat, reps: seq<string>, m: nat)
    requires m <= |reps|
    ensures Against(valid, p, reps, m, EmbeddingMode) + Against(valid, p, reps, m, TextMode) == m
  {
    if m > 0 {
      AgainstSum(valid, p, reps, m - 1);
    }
  }

  /** Comparing with one more representative counts one in its mode. */
  lemma TallyStep(valid: seq<Run>, p: nat, reps: seq<string>, k: nat, e0: nat, t0: nat, e: nat, t: nat, mode: Mode)
    requires k < |reps| && Tallied(valid, p, reps, k, e0, t0, e, t) && mode == CompareMode(valid, p, reps[k])
    ensures Tallied(valid, p, reps, k + 1, e0, t0, if mode == EmbeddingMode then e + 1 else e,
                    if mode == EmbeddingMode then t else t + 1)
  {
  }

  /** One turn of the inner loop: find the representative's run, take the
      similarity and its mode, and test the mode's threshold. */
  method CompareRep(valid: seq<Run>, p: nat, repId: string, signatureCache: map<string, string>, cfg: Config)
    returns (mode: Mode, joins: bool)
    requires p < |valid| && ReadyBefore(valid, p + 1) && signatureCache == CacheAt(valid, p + 1)
    requires RunKey(valid[p]) != "" && Found(valid, repId, p)
    ensures mode == CompareMode(valid, p, repId)
    ensures joins <==> Joins(valid, p, repId, cfg)
  {
    var found := FindRunById(valid, repId);
    var sm := Similarity(valid[p], valid[found.value], signatureCache, cfg);
    JoinsDecided(valid, p, repId, found.value, signatureCache, cfg);
    mode := sm.1;
    joins := sm.0 >= Threshold(sm.1, cfg);
  }

  /** A turn of the inner loop together with its tally: the comparison with
      the `k`-th representative counts towards its mode. */
  method CountedCompare(valid: seq<Run>, p: nat, reps: seq<string>, k: nat, signatureCache: map<string, string>,
                        cfg: Config, e0: nat, t0: nat, e: nat, t: nat)
    returns (joins: bool, e': nat, t': nat)
    requires p < |valid| && ReadyBefore(valid, p + 1) && signatureCache == CacheAt(valid, p + 1)
    requires RunKey(valid[p]) != "" && k < |reps| && Found(valid, reps[k], p)
    requires Tallied(valid, p, reps, k, e0, t0, e, t)
    ensures joins <==> Joins(valid, p, reps[k], cfg)
    ensures Tallied(valid, p, reps, k + 1, e0, t0, e', t')
  {
    var mode;
    mode, joins := CompareRep(valid, p, reps[k], signatureCache, cfg);
    TallyStep(valid, p, reps, k, e0, t0, e, t, mode);
    if mode == EmbeddingMode {
      e', t' := e + 1, t;
    } else {
      e', t' := e, t + 1;
    }
  }

  /** The inner loop of `compute_families_and_robustness`: run `p` is
      compared with the representatives in creation order until one is
      similar enough; each comparison counts towards its mode. */
  method FindFamily(valid: seq<Run>, p: nat, families: seq<FamilyResult>,
                    signatureCache: map<string, string>, cfg: Config, embeddingCount0: nat, textCount0: nat)
    returns (k: nat, isAssigned: bool, embeddingCount: nat, textCount: nat)
    requires p < |valid| && ReadyBefore(valid, p + 1) && signatureCache == CacheAt(valid, p + 1)
    requires RunKey(valid[p]) != ""
    requires forall k :: 0 <= k < |families| ==> Found(valid, families[k].repRunId, p)
    ensures k <= |families| && (!isAssigned ==> k == |families|)
    ensures forall k' :: 0 <= k' < k ==> !Joins(valid, p, families[k'].repRunId, cfg)
    ensures isAssigned ==> k < |families| && Joins(valid, p, families[k].repRunId, cfg)
    ensures embeddingCount + textCount == embeddingCount0 + textCount0 + k + (if isAssigned then 1 else 0)
    ensures Tallied(valid, p, RepIds(families), k + if isAssigned then 1 else 0,
                    embeddingCount0, textCount0, embeddingCount, textCount)
  {
    var reps := RepIds(families);
    k, isAssigned, embeddingCount, textCount := FindRep(valid, p, reps, signatureCache, cfg, embeddingCount0, textCount0);
  }

  /** `FindFamily` over the representatives' ids alone. */
  method FindRep(valid: seq<Run>, p: nat, reps: seq<string>,
                 signatureCache: map<string, string>, cfg: Config, embeddingCount0: nat, textCount0: nat)
    returns (k: nat, isAssigned: bool, embeddingCount: nat, textCount: nat)
    requires p < |valid| && ReadyBefore(valid, p + 1) && signatureCache == CacheAt(valid, p + 1)
    requires RunKey(valid[p]) != ""
    requires forall k :: 0 <= k < |reps| ==> Found(valid, reps[k], p)
    ensures k <= |reps| && (!isAssigned ==> k == |reps|)
    ensures forall k' :: 0 <= k' < k ==> !Joins(valid, p, reps[k'], cfg)
    ensures isAssigned ==> k < |reps| && Joins(valid, p, reps[k], cfg)
    ensures embeddingCount + textCount == embeddingCount0 + textCount0 + k + (if isAssigned then 1 else 0)
    ensures Tallied(valid, p, reps, k + if isAssigned then 1 else 0,
                    embeddingCount0, textCount0, embeddingCount, textCount)
  {
    embeddingCount, textCount := embeddingCount0, textCount0;
    isAssigned := false;
    k := 0;
    ghost var compared: nat := 0;
    while k < |reps| && !isAssigned
      invariant k <= |reps| && compared == k + (if isAssigned then 1 else 0)
      invariant forall k' :: 0 <= k' < k ==> !Joins(valid, p, reps[k'], cfg)
      invariant isAssigned ==> k < |reps| && Joins(valid, p, reps[k], cfg)
      invariant Tallied(valid, p, reps, compared, embeddingCount0, textCount0, embeddingCount, textCount)
      decreases |reps| - k, !isAssigned
    {
      var joins;
      joins, embeddingCount, textCount :=
        CountedCompare(valid, p, reps, k, signatureCache, cfg, embeddingCount0, textCount0, embeddingCount, textCount);
      compared := k + 1;
      if joins {
        isAssigned := true;
      } else {
        NoneJoinExtend(valid, p, reps, k, cfg);
        k := k + 1;
      }
    }
    AgainstSum(valid, p, reps, compared);
    TalliedSame(valid, p, reps, compared, k + if isAssigned then 1 else 0,
                embeddingCount0, textCount0, embeddingCount, textCount);
  }

  lemma NoneJoinExtend(valid: seq<Run>, p: nat, reps: seq<string>, k: nat, cfg: Config)
    requires p < |valid| && ReadyBefore(valid, p + 1) && k < |reps|
    requires forall k' :: 0 <= k' < k ==> !Joins(valid, p, reps[k'], cfg)
    requires !Joins(valid, p, reps[k], cfg)
    ensures forall k' :: 0 <= k' < k + 1 ==> !Joins(valid, p, reps[k'], cfg)
  {
  }

  /** A restatement of `Tallied` under equal counts, which keeps the
      solver from unfolding the counts to match them. */
  lemma TalliedSame(valid: seq<Run>, p: nat, reps: seq<string>, m: nat, m': nat,
                    e0: nat, t0: nat, e: nat, t: nat)
    requires m == m' && Tallied(valid, p, reps, m, e0, t0, e, t)
    ensures Tallied(valid, p, reps, m', e0, t0, e, t)
  {
  }

  /** The first-fit loop over the valid runs (the body of
      `compute_families_and_robustness` after its length check). It raises
      at the first run with an id whose `raw_json` cannot be read
      (`raises == Some(p)`); otherwise every run with an id is placed. */
  method FirstFitFamilies(valid: seq<Run>, cfg: Config)
    returns (families: seq<FamilyResult>, embeddingCount: nat, textCount: nat, raises: Option<nat>,
             ghost groups: seq<seq<nat>>)
    ensures raises.Some? ==>
      raises.value < |valid| && RunKey(valid[raises.value]) != "" && !SignatureReady(valid[raises.value])
      && ReadyBefore(valid, raises.value)
    ensures raises.None? ==>
      ReadyBefore(valid, |valid|)
      && Mirrors(valid, families, groups) && Placed(valid, |valid|, groups) && FirstFit(valid, groups, cfg)
      && embeddingCount + textCount == ComparisonCount(groups)
      && Counted(valid, groups, embeddingCount, textCount)
  {
    families, groups := [], [];
    var signatureCache: map<string, string> := map[];
    embeddingCount, textCount, raises := 0, 0, None;
    for p := 0 to |valid|
      invariant ReadyBefore(valid, p)
      invariant Progress(valid, p, families, groups, cfg)
      invariant signatureCache == CacheAt(valid, p)
      invariant embeddingCount + textCount == ComparisonCount(groups)
      invariant Counted(valid, groups, embeddingCount, textCount)
    {
      var runId := RunKey(valid[p]);
      if runId != "" && !SignatureReady(valid[p]) {
        return families, embeddingCount, textCount, Some(p), groups;
      }
      ReadyStep(valid, p);
      CacheStep(valid, p);
      if runId == "" {
        SkipStep(valid, p, families, groups, cfg);
        continue;
      }
      signatureCache := signatureCache[runId := BuildSignatureText(valid[p])];
      families, groups, embeddingCount, textCount :=
        PlaceRun(valid, p, families, groups, signatureCache, cfg, embeddingCount, textCount);
    }
  }

  /** The two counters hold the comparisons made in each mode so far,
      against the representatives of the groups. */
  ghost predicate Counted(valid: seq<Run>, groups: seq<seq<nat>>, e: nat, t: nat) {
    e == ModeCount(valid, groups, RepKeys(valid, groups), EmbeddingMode)
    && t == ModeCount(valid, groups, RepKeys(valid, groups), TextMode)
  }

  /** The families' representatives are those of the groups they mirror. */
  lemma RepsMirror(valid: seq<Run>, families: seq<FamilyResult>, groups: seq<seq<nat>>)
    requires Mirrors(valid, families, groups)
    ensures RepIds(families) == RepKeys(valid, groups)
  {
    forall k | 0 <= k < |groups|
      ensures RepIds(families)[k] == RepKeys(valid, groups)[k]
    {
      RepOfGroup(valid, families, groups, k);
    }
  }

  /** Run `p` joining family `k` adds its comparisons with the
      representatives of families `0 .. k`. */
  lemma CountedJoin(valid: seq<Run>, p: nat, families: seq<FamilyResult>, groups: seq<seq<nat>>, k: nat,
                    e0: nat, t0: nat, e: nat, t: nat)
    requires Mirrors(valid, families, groups) && k < |groups| && Counted(valid, groups, e0, t0)
    requires Tallied(valid, p, RepIds(families), k + 1, e0, t0, e, t)
    ensures Counted(valid, AddTo(groups, k, p), e, t)
  {
    RepOfGroup(valid, families, groups, k);
    RepsMirror(valid, families, groups);
    RepKeysJoin(valid, groups, k, p);
    ModeCountJoin(valid, groups, RepKeys(valid, groups), k, p, EmbeddingMode);
    ModeCountJoin(valid, groups, RepKeys(valid, groups), k, p, TextMode);
  }

  /** Run `p` founding a family adds its comparisons with every
      representative so far. */
  lemma CountedSeed(valid: seq<Run>, p: nat, families: seq<FamilyResult>, groups: seq<seq<nat>>,
                    e0: nat, t0: nat, e: nat, t: nat)
    requires Mirrors(valid, families, groups) && p < |valid| && Counted(valid, groups, e0, t0)
    requires Tallied(valid, p, RepIds(families), |families|, e0, t0, e, t)
    ensures Counted(valid, groups + [[p]], e, t)
  {
    var reps := RepKeys(valid, groups);
    RepsMirror(valid, families, groups);
    RepKeysSeed(valid, groups, p);
    SeedModes(valid, p, groups, reps, RunKey(valid[p]), EmbeddingMode);
    SeedModes(valid, p, groups, reps, RunKey(valid[p]), TextMode);
  }

  lemma SeedModes(valid: seq<Run>, p: nat, groups: seq<seq<nat>>, reps: seq<string>, key: string, mode: Mode)
    requires |reps| == |groups|
    ensures ModeCount(valid, groups + [[p]], reps + [key], mode)
            == ModeCount(valid, groups, reps, mode) + Against(valid, p, reps, |groups|, mode)
  {
    ModeCountSeed(valid, groups, reps + [key], p, mode);
    ModeCountExtend(valid, groups, reps, [key], mode);
    AgainstExtend(valid, p, reps, [key], |groups|, mode);
  }

  /** One turn of the first-fit loop for a run with an id: it joins the
      first family whose representative it matches, or founds a new one. */
  method PlaceRun(valid: seq<Run>, p: nat, families0: seq<FamilyResult>, ghost groups0: seq<seq<nat>>,
                  signatureCache: map<string, string>, cfg: Config, embeddingCount0: nat, textCount0: nat)
    returns (families: seq<FamilyResult>, ghost groups: seq<seq<nat>>, embeddingCount: nat, textCount: nat)
    requires p < |valid| && ReadyBefore(valid, p + 1) && RunKey(valid[p]) != "" && Progress(valid, p, families0, groups0, cfg)
    requires signatureCache == CacheAt(valid, p + 1)
    requires embeddingCount0 + textCount0 == ComparisonCount(groups0)
    requires Counted(valid, groups0, embeddingCount0, textCount0)
    ensures Progress(valid, p + 1, families, groups, cfg)
    ensures embeddingCount + textCount == ComparisonCount(groups)
    ensures Counted(valid, groups, embeddingCount, textCount)
  {
    var runId := RunKey(valid[p]);
    var k, isAssigned;
    RepresentativesFound(valid, p, families0, groups0, cfg);
    k, isAssigned, embeddingCount, textCount :=
      FindFamily(valid, p, families0, signatureCache, cfg, embeddingCount0, textCount0);
    if isAssigned {
      families := families0[k := families0[k].(runIds := families0[k].runIds + [runId])];
      groups := AddTo(groups0, k, p);
      JoinPlacement(valid, p, families0, groups0, k, cfg, embeddingCount0, textCount0, embeddingCount, textCount,
                    families, groups);
    } else {
      families := families0 + [FamilyResult("family_" + NatToString(|families0| + 1), runId, [runId])];
      groups := groups0 + [[p]];
      SeedPlacement(valid, p, families0, groups0, cfg, embeddingCount0, textCount0, embeddingCount, textCount,
                    families, groups);
    }
  }

  /** Run `p` joining family `k` keeps the loop's facts and its counts. */
  lemma JoinPlacement(valid: seq<Run>, p: nat, families: seq<FamilyResult>, groups: seq<seq<nat>>, k: nat, cfg: Config,
                      e0: nat, t0: nat, e: nat, t: nat, families': seq<FamilyResult>, groups': seq<seq<nat>>)
    requires p < |valid| && ReadyBefore(valid, p + 1) && RunKey(valid[p]) != "" && Progress(valid, p, families, groups, cfg)
    requires k < |families|
    requires forall k' :: 0 <= k' < k ==> !Joins(valid, p, families[k'].repRunId, cfg)
    requires Joins(valid, p, families[k].repRunId, cfg)
    requires e0 + t0 == ComparisonCount(groups) && e + t == e0 + t0 + k + 1
    requires Counted(valid, groups, e0, t0) && Tallied(valid, p, RepIds(families), k + 1, e0, t0, e, t)
    requires families' == families[k := families[k].(runIds := families[k].runIds + [RunKey(valid[p])])]
    requires groups' == AddTo(groups, k, p)
    ensures Progress(valid, p + 1, families', groups', cfg)
    ensures e + t == ComparisonCount(groups') && Counted(valid, groups', e, t)
  {
    JoinStep(valid, p, families, groups, k, cfg);
    CountedJoin(valid, p, families, groups, k, e0, t0, e, t);
  }

  /** Run `p` founding a family keeps the loop's facts and its counts. */
  lemma SeedPlacement(valid: seq<Run>, p: nat, families: seq<FamilyResult>, groups: seq<seq<nat>>, cfg: Config,
                      e0: nat, t0: nat, e: nat, t: nat, families': seq<FamilyResult>, groups': seq<seq<nat>>)
    requires p < |valid| && ReadyBefore(valid, p + 1) && RunKey(valid[p]) != "" && Progress(valid, p, families, groups, cfg)
    requires forall k' :: 0 <= k' < |families| ==> !Joins(valid, p, families[k'].repRunId, cfg)
    requires e0 + t0 == ComparisonCount(groups) && e + t == e0 + t0 + |families|
    requires Counted(valid, groups, e0, t0) && Tallied(valid, p, RepIds(families), |families|, e0, t0, e, t)
    requires families' == families + [FamilyResult("family_" + NatToString(|families| + 1), RunKey(valid[p]), [RunKey(valid[p])])]
    requires groups' == groups + [[p]]
    ensures Progress(valid, p + 1, families', groups', cfg)
    ensures e + t == ComparisonCount(groups') && Counted(valid, groups', e, t)
  {
    SeedStep(valid, p, families, groups, cfg);
    CountedSeed(valid, p, families, groups, e0, t0, e, t);
  }

  /** `"FRAGILE" if len(families) == 1 else "ROBUST"` */
  function Status(numFamilies: nat): string {
    if numFamilies == 1 then "FRAGILE" else "ROBUST"
  }

  /** Some run with an id has a `raw_json` that `_build_signature_text`
      cannot read: a truthy non-dict `raw_json` or `reasoning_summary`
      (no `.get`), or a list of fallbacks that are not all strings
      (`"\n".join` refuses them). */
  predicate Unreadable(valid: seq<Run>) {
    exists q :: 0 <= q < |valid| && RunKey(valid[q]) != "" && !SignatureReady(valid[q])
  }

  /** `compute_families_and_robustness(runs, embedding_threshold, text_threshold)`.
      `raises` says that the call raises instead of returning; the other
      results then carry no meaning. */
  method ComputeFamiliesAndRobustness(runs: seq<Run>, cfg: Config)
    returns (families: seq<FamilyResult>, robustness: string, error: Option<string>, meta: Meta, raises: bool,
             ghost groups: seq<seq<nat>>)
    ensures error.None?
    ensures var valid := ValidRuns(runs);
      raises <==> |valid| >= 2 && Unreadable(valid)
    ensures var valid := ValidRuns(runs);
      |valid| < 2 ==> families == [] && robustness == "INSUFFICIENT_DATA" && meta == Insufficient(|valid|)
    ensures var valid := ValidRuns(runs);
      |valid| >= 2 && !raises ==>
        Mirrors(valid, families, groups) && Placed(valid, |valid|, groups) && FirstFit(valid, groups, cfg)
        && (robustness == "FRAGILE" <==> |families| == 1) && (|families| != 1 ==> robustness == "ROBUST")
        && meta.Metrics? && meta.validRuns == |valid| && meta.numFamilies == |families|
        && meta.robustnessStatus == robustness
        && meta.embeddingCount + meta.textCount == ComparisonCount(groups)
        && meta.embeddingCount == ModeCount(valid, groups, RepKeys(valid, groups), EmbeddingMode)
        && meta.textCount == ModeCount(valid, groups, RepKeys(valid, groups), TextMode)
  {
    var valid := ValidRuns(runs);
    if |valid| < 2 {
      return [], "INSUFFICIENT_DATA", None, Insufficient(|valid|), false, [];
    }
    var embeddingCount, textCount;
    var raised;
    families, embeddingCount, textCount, raised, groups := FirstFitFamilies(valid, cfg);
    if raised.Some? {
      return [], "", None, Insufficient(|valid|), true, [];
    }
    robustness := Status(|families|);
    error := None;
    raises := false;
    meta := Metrics(|valid|, embeddingCount, textCount, |families|, robustness);
  }

  // ---------------------------------------------------------------------
  // What the loop's result means
  // ---------------------------------------------------------------------

  /** Every run with an id is in exactly one family, whose run ids list
      it at the run's place; no run without an id is in any. */
  lemma FamilyOfRun(valid: seq<Run>, families: seq<FamilyResult>, groups: seq<seq<nat>>, q: nat)
    requires Mirrors(valid, families, groups) && Placed(valid, |valid|, groups) && q < |valid|
    ensures RunKey(valid[q]) == "" ==> forall k :: 0 <= k < |groups| ==> q !in groups[k]
    ensures RunKey(valid[q]) != "" ==>
      exists k, t :: 0 <= k < |groups| && 0 <= t < |groups[k]| && groups[k][t] == q
                     && families[k].runIds[t] == RunKey(valid[q])
    ensures forall k1, k2 :: 0 <= k1 < |groups| && 0 <= k2 < |groups| && q in groups[k1] && q in groups[k2] ==> k1 == k2
  {
    if RunKey(valid[q]) != "" {
      var k, t := PlaceOfRun(valid, families, groups, q);
      assert 0 <= k < |groups| && 0 <= t < |groups[k]| && groups[k][t] == q && families[k].runIds[t] == RunKey(valid[q]);
    } else {
      assert !HasId(valid)(q);
      forall k | 0 <= k < |groups| ensures q !in groups[k] {
        assert forall t :: 0 <= t < |groups[k]| ==> HasId(valid)(groups[k][t]);
      }
    }
    forall k1, k2 | 0 <= k1 < |groups| && 0 <= k2 < |groups| && q in groups[k1] && q in groups[k2]
      ensures k1 == k2
    {
      assert PlacedBy(groups, |valid|, |valid|, HasId(valid));
    }
  }

  /** The family and place of a run with an id. */
  lemma PlaceOfRun(valid: seq<Run>, families: seq<FamilyResult>, groups: seq<seq<nat>>, q: nat) returns (k: nat, t: nat)
    requires Mirrors(valid, families, groups) && Placed(valid, |valid|, groups) && q < |valid|
    requires RunKey(valid[q]) != ""
    ensures k < |groups| && t < |groups[k]| && groups[k][t] == q
    ensures k < |families| && t < |families[k].runIds| && families[k].runIds[t] == RunKey(valid[q])
  {
    k, t := GroupOfRun(valid, groups, q);
    RunIdAt(valid, families, groups, k, t);
  }

  lemma GroupOfRun(valid: seq<Run>, groups: seq<seq<nat>>, q: nat) returns (k: nat, t: nat)
    requires Placed(valid, |valid|, groups) && q < |valid| && RunKey(valid[q]) != ""
    ensures k < |groups| && t < |groups[k]| && groups[k][t] == q
  {
    assert HasId(valid)(q);
    assert InGroupBefore(groups, |groups|, q);
    k :| 0 <= k < |groups| && q in groups[k];
    t :| 0 <= t < |groups[k]| && groups[k][t] == q;
  }

  /** The family at `k` lists the id of the `t`-th run of group `k` at `t`. */
  lemma RunIdAt(valid: seq<Run>, families: seq<FamilyResult>, groups: seq<seq<nat>>, k: nat, t: nat)
    requires Mirrors(valid, families, groups) && k < |groups| && t < |groups[k]|
    ensures groups[k][t] < |valid| && k < |families| && t < |families[k].runIds|
    ensures families[k].runIds[t] == RunKey(valid[groups[k][t]])
  {
    assert MirrorsAt(valid, families[k], groups[k], k);
    assert families[k].runIds[t] == Keys(valid)[groups[k][t]];
  }

  /** Families are named `family_1`, `family_2`, ... in creation order, with
      distinct names; the representative is the first run listed; the
      first runs come in visiting order. */
  lemma FamilyShape(valid: seq<Run>, families: seq<FamilyResult>, groups: seq<seq<nat>>)
    requires Mirrors(valid, families, groups) && Placed(valid, |valid|, groups)
    ensures forall k :: 0 <= k < |families| ==>
      families[k].familyId == "family_" + NatToString(k + 1)
      && families[k].runIds != [] && families[k].repRunId == families[k].runIds[0]
    ensures forall k1, k2 :: 0 <= k1 < k2 < |families| ==> families[k1].familyId != families[k2].familyId
    ensures forall k1, k2 :: 0 <= k1 < k2 < |groups| ==> groups[k1][0] < groups[k2][0]
  {
    forall k | 0 <= k < |families|
      ensures families[k].familyId == "family_" + NatToString(k + 1)
      ensures families[k].runIds != [] && families[k].repRunId == families[k].runIds[0]
    {
      assert MirrorsAt(valid, families[k], groups[k], k);
      assert families[k].runIds[0] == Keys(valid)[groups[k][0]];
    }
    DistinctNames(families);
  }

  lemma DistinctNames(families: seq<FamilyResult>)
    requires forall k :: 0 <= k < |families| ==> families[k].familyId == "family_" + NatToString(k + 1)
    ensures forall k1, k2 :: 0 <= k1 < k2 < |families| ==> families[k1].familyId != families[k2].familyId
  {
    forall k1, k2 | 0 <= k1 < k2 < |families|
      ensures families[k1].familyId != families[k2].familyId
    {
      if families[k1].familyId == families[k2].familyId {
        PrefixNamesInjective("family_", k1 + 1, k2 + 1);
      }
    }
  }

  /** With no run carrying an id, no family is formed, and the status is
      then ROBUST although nothing was compared. */
  lemma NoIdsNoFamilies(valid: seq<Run>, families: seq<FamilyResult>, groups: seq<seq<nat>>)
    requires Mirrors(valid, families, groups) && Placed(valid, |valid|, groups)
    requires forall q :: 0 <= q < |valid| ==> RunKey(valid[q]) == ""
    ensures families == [] && Status(|families|) == "ROBUST"
  {
    FirstPlacedHasId(valid, groups);
  }

  lemma FirstPlacedHasId(valid: seq<Run>, groups: seq<seq<nat>>)
    requires Placed(valid, |valid|, groups)
    ensures groups != [] ==> groups[0] != [] && groups[0][0] < |valid| && RunKey(valid[groups[0][0]]) != ""
  {
  }
}
