# MPRG reasoning families, verified model

MPRG runs several agents on one task. It captures each agent's reasoning, groups the runs into
"reasoning families", classifies how robust their agreement is, and gates execution on that
classification. A single family means every agent reasoned the same way, so the answer is
FRAGILE. Several families mean the answer was reached independently.

This Dafny project models the deterministic core of that chain and proves what it promises.

- **Family clustering.** There are four partition algorithms over given similarities:
  - `TaskAnalysis`: first-fit against each family's representative, in embedding or text mode;
  - `Cluster`: union-find over "plan cosine ≥ t₁ or assumption Jaccard ≥ t₂", plus the family signature;
  - `Grouper`: greedy seeds that need both the FOL and the semantic similarity to clear their thresholds;
  - `Vectors`: the TF-IDF vector store's seed clustering and bookkeeping.

  `Groups` holds the placement and seed-grouping invariants these share.
- **Robustness and gating.**
  - `Scorer`: family count to FRAGILE/MODERATE/ROBUST, the breakdown, and the diversity matrix.
  - `Gate`: BLOCK/WARN/ALLOW with strict mode and a one-shot override.
- **Validators and parsers.**
  - `Generator` and `Models`: the two summary validators.
  - `Runner`: the plan/explanation splitter and the agent-count clamping.
  - `Translator`: the chain-of-reasoning parser and FOL emitter.
  - `Orchestrator`: the clustering wiring and the status mapping.
  - `Planner`: provider resolution, `.env` loading and Anthropic message splitting.
- **Shared modules.** `Wrappers`, `Text`, `Json`, `Sorting` and `Collections` model the Python built-ins these rely on:
  - `str.strip`, `split`, `splitlines`, `find`;
  - `sorted(..., reverse=True)`, which is stable;
  - dict key order;
  - JSON values.

Code that works by mutation is modelled imperatively:
- `UnionFind` is a class over a `parent` array, and `VectorStore` is a class whose fields `add_reasoning` updates.
- The loops of `compute_families_and_robustness`, `cluster_runs`, `build_family_signature`, `_cluster_dual_layer`, `_compute_fol_similarity`, `_parse_response`, `_extract_steps`, `_segments_to_fol`, `_load_env_keys` and the orchestrator's `_attach_embeddings` are methods with loop invariants.
- Each such method is proved equal to a specification function, and the properties are proved about that function.

Some outside computations become function parameters:
- floating-point similarity: embedding cosine, `difflib` ratio, and the TF-IDF logarithm and square root;
- the embedding model;
- the language-model calls;
- fresh uuids.

## Model

| member | source | states |
|---|---|---|
| Gate.GateDecision.Value | mprg/gate.py:18-22 | the enum's `.value` is one of "BLOCK", "WARN", "ALLOW" |
| Gate.ValueInjective | mprg/gate.py:18-22 | two decisions with the same `.value` are the same decision |
| Gate.BlockDecision | mprg/gate.py:93-118 | a BLOCK result on the same robustness, overridable, with an override warning; the moderate flag changes nothing |
| Gate.WarnDecision | mprg/gate.py:120-138 | a WARN result on the same robustness, not overridable, no override warning |
| Gate.AllowDecision | mprg/gate.py:140-155 | an ALLOW result on the same robustness, not overridable, no override warning |
| Gate.ExecutionGate.Evaluate | mprg/gate.py:70-91 | FRAGILE gives BLOCK; MODERATE gives WARN, or BLOCK in strict mode; any other score gives ALLOW; `can_override` holds exactly for BLOCK, which alone carries an override warning; the robustness is kept |
| Gate.ExecutionGate.Override | mprg/gate.py:157-184 | a result that cannot be overridden comes back unchanged; otherwise ALLOW with reason "User override: " + confirmation, not overridable, same robustness, with a warning |
| Gate.OverrideIdempotent | mprg/gate.py:171-184 | overriding twice gives the same result as overriding once, whatever the second confirmation |
| Gate.EvaluateThenOverride | mprg/gate.py:84-91 | after evaluate then override the decision is ALLOW or WARN, never overridable, on the same robustness; a blocked score ends with the user-override reason |
| Gate.ObjGet | mprg/gate.py:190-208 | a dict literal with distinct keys is well formed and maps each key to its own value |
| Gate.GateResultToDictFields | mprg/gate.py:188-208 | `GateResultToDict` copies the decision's `.value`, the reason, action, suggestion, color, icon, `can_override` and override warning verbatim (`None` as null), and nests the robustness dict |
| Gate.GateResultKeys | mprg/gate.py:190-208 | the dict has exactly the keys "decision", "reason", "action", "suggestion", "color", "icon", "can_override", "override_warning", "robustness", in that order |
| Gate.RobustnessFields | mprg/gate.py:199-207 | `RobustnessJson` copies score, confidence, total agents, distinct families, explanation and recommendation, and `family_breakdown` is a list holding, in order, the `BreakdownJson` of each breakdown item |
| Gate.BreakdownFields | mprg/scorer.py:95-110 | `BreakdownJson` of an item copies the family id and number, member count, members, key idea, FOL pattern and assumptions, and nests the FOL, semantic and combined similarities |
| Gate.SimilarityFields | mprg/scorer.py:103-107 | the nested similarity dict holds the FOL, semantic and combined similarities under "fol", "semantic" and "combined" |
| Scorer.Score | mprg/scorer.py:47-120 | `distinct_families` is the family count, one breakdown entry per family, and the label is FRAGILE exactly for a single family |
| Scorer.MemberCounts | mprg/scorer.py:57 | one member count per family, each the length of its `member_ids` |
| Scorer.ScoreClassification | mprg/scorer.py:56-92 | one family gives FRAGILE with `Confidence` 0.9, two give MODERATE / 0.7, any other count (0 included) gives ROBUST / 0.85; `distinct_families` is the family count and `total_agents` the summed member counts |
| Scorer.ScoreTexts | mprg/scorer.py:60-92 | `Explanation` and `Recommendation`: one family gives "All N agents used the same underlying reasoning. …" and the fragile advice; otherwise the text starts "Found K distinct reasoning approaches among N agents. " and ends with the moderate text and advice for two families, the robust ones for any other count |
| Scorer.LabelCases | mprg/scorer.py:60-83 | `Label` is FRAGILE exactly for 1 family, MODERATE exactly for 2, ROBUST otherwise |
| Scorer.ScoreBreakdown | mprg/scorer.py:95-110 | one breakdown entry per family in order, numbered from 1, with the family id, the member count and ids, the key idea and the FOL, semantic and combined similarities copied, and exactly the first 3 assumptions (`[:3]`) and the first 100 pattern characters (`[:100]`) |
| Scorer.TotalAgentsFlatten | mprg/scorer.py:57 | `total_agents` is the number of member ids over all families |
| Scorer.DiversityMatrix | mprg/scorer.py:122-153 | fewer than two families give only a message; otherwise the family count, the key ideas in order, the total assumptions as the length of the flattened assumption lists, the unique ones as the size of their set, and the overlap `1 - unique / max(total, 1)` |
| Scorer.SharedCounts | mprg/scorer.py:140-142 | the number of shared assumptions of each family |
| Scorer.DiversityCounts | mprg/scorer.py:140-151 | the total is the sum of the families' assumption counts, and an assumption is counted as unique exactly when some family shares it |
| Scorer.DiversityBounds | mprg/scorer.py:122-153 | fewer than two families gives no diversity; otherwise the count is the family count, unique ≤ total assumptions and the overlap `1 - unique / max(total, 1)` lies in [0, 1], is 0 exactly when every assumption is distinct and 1 when there are none |
| Vectors.WordRun | mprg/vectors.py:43 | the length of the leading run of word characters: all of them word characters, the next one not |
| Vectors.Tokens | mprg/vectors.py:43 | `re.findall(r'\b[a-z]+\b')`: every match is a non-empty run of `a`-`z` |
| Vectors.Tokenize | mprg/vectors.py:41-43 | `_tokenize`: every token is a non-empty run of lower-case letters |
| Vectors.TokensAmong | mprg/vectors.py:43 | the word runs that consist only of `a`-`z`: a text is kept exactly when it is such a run |
| Vectors.TokensLayout | mprg/vectors.py:43 | the text is its maximal runs of word characters with non-word gaps between them, and the matches are exactly the runs made only of `a`-`z` (`\b` on both sides means a whole run) |
| Vectors.TokenizeLayout | mprg/vectors.py:41-43 | the same decomposition of the lowered text gives `_tokenize`'s tokens |
| Vectors.TokensWord | mprg/vectors.py:43 | a token followed by a non-word character is matched whole and scanning resumes after it |
| Vectors.TokensJoin | mprg/vectors.py:43 | tokens joined by single spaces are matched back one for one |
| Vectors.TokenizeJoin | mprg/vectors.py:41-43 | `_tokenize` of tokens joined by spaces returns exactly those tokens (lowering changes nothing) |
| Vectors.Tf | mprg/vectors.py:45-52 | the term-frequency vector has exactly the distinct tokens as keys, in first-seen order |
| Vectors.ComputeTf | mprg/vectors.py:45-52 | the counting loop and the division by `len(tokens) or 1` build exactly `Tf(tokens)` |
| Vectors.CountsAddUp | mprg/vectors.py:47-49 | the counts of the distinct tokens add up to the number of tokens |
| Vectors.TfSumsToOne | mprg/vectors.py:51-52 | the term frequencies of a non-empty token list add up to 1 |
| Vectors.TfWeight | mprg/vectors.py:51-52 | each token's weight is its count divided by the number of tokens |
| Vectors.TfWeightBounds | mprg/vectors.py:51-52 | every term frequency lies in (0, 1] |
| Vectors.TfEmpty | mprg/vectors.py:45-52 | no tokens give the empty map |
| Vectors.DocFrequencies | mprg/vectors.py:56-59 | the nested counting loop yields, per term, the number of vectors holding it |
| Vectors.DocFreqs | mprg/vectors.py:56-59 | the document-frequency table has exactly the terms of the vectors as keys |
| Vectors.DocFreqTerms | mprg/vectors.py:56-59 | a term is counted exactly when some vector holds it |
| Vectors.DocFreqBound | mprg/vectors.py:56-59 | a term is counted at most once per vector |
| Vectors.IdfOf | mprg/vectors.py:61-65 | the idf table has exactly the counted terms as keys |
| Vectors.Tfidf | mprg/vectors.py:67-71 | weighting keeps the keys, in order, and the vector's well-formedness |
| Vectors.TfidfUnknown | mprg/vectors.py:71 | a term missing from the idf table keeps its frequency (`idf.get(term, 1.0)`) |
| Vectors.Cosine | mprg/vectors.py:73-88 | 0.0 when either vector is empty or has zero magnitude |
| Vectors.SumSquaresNonNegative | mprg/vectors.py:82-83 | a sum of squares is never negative |
| Vectors.TfVectors | mprg/vectors.py:180-184 | one well-formed term-frequency vector per text |
| Vectors.BatchTfidf | mprg/vectors.py:186-201 | one TF-IDF vector per text, weighted by the batch's own idf |
| Vectors.SimilarityOf | mprg/vectors.py:203-212 | the matrix is n by n |
| Vectors.SimilarityShape | mprg/vectors.py:204-212 | 1.0 on the diagonal and symmetric |
| Vectors.ComputeSimilarityMatrix | mprg/vectors.py:163-214 | the in-place fill (diagonal, upper triangle mirrored) yields exactly `SimilarityOf` of the batch vectors |
| Vectors.KeptIds | mprg/vectors.py:134-137 | the ids kept by `find_similar`'s task filter are exactly the stored ids that pass it |
| Vectors.TaskIds | mprg/vectors.py:231-235 | `task_docs` holds exactly the stored ids whose metadata names the given task |
| Vectors.TaskIdsDistinct | mprg/vectors.py:231-235 | the given task's ids are distinct |
| Vectors.TopSimilar | mprg/vectors.py:148-152 | the sort and the slice keep at most `n_results` positions, in decreasing similarity, none less similar than one left out |
| Vectors.HitsRanked | mprg/vectors.py:148-161 | `find_similar` returns at most `n_results` hits, sorted by decreasing similarity, each with its stored text and metadata and `distance == 1 - similarity`, none less similar than a candidate left out |
| Vectors.Links | mprg/vectors.py:260 | the link matrix marks exactly the cells whose similarity reaches the threshold |
| Vectors.StoreValidAdd | mprg/vectors.py:103-108 | adding a text keeps the three dicts on the same key set, each id listed once |
| Vectors.VectorStore.constructor | mprg/vectors.py:29-39 | an empty store with a zero count |
| Vectors.VectorStore.UpdateIdf | mprg/vectors.py:54-65 | the idf table becomes the one computed from the stored vectors and document count |
| Vectors.VectorStore.AddReasoning | mprg/vectors.py:90-112 | stores or overwrites the text, metadata (`{}` when absent) and term frequencies under the id, counts the call, and recomputes idf exactly when the count is a multiple of 5 |
| Vectors.VectorStore.Put | mprg/vectors.py:103-108 | the three dict assignments and the count |
| Vectors.VectorStore.FindSimilar | mprg/vectors.py:114-161 | refreshes idf, then returns `Ranked` over the kept ids and their cosine similarity to the query |
| Vectors.VectorStore.GetClusters | mprg/vectors.py:216-266 | the clusters follow the seed rules over the given task's documents and the similarity matrix, and cover each position once |
| Vectors.ScoreDocuments | mprg/vectors.py:133-146 | the filter loop keeps the given task's ids and their similarities, in order |
| Vectors.SimilaritiesSnoc | mprg/vectors.py:145-146 | one more kept id appends its similarity |
| Vectors.RankHits | mprg/vectors.py:148-161 | the sort, slice and result loop build `Ranked` |
| Vectors.SeedClusters | mprg/vectors.py:247-266 | the nested loops with the `assigned` set produce the seed grouping of the link matrix, one id list per group |
| Vectors.GrowCluster | mprg/vectors.py:252-266 | the inner loop grows the cluster of an unassigned seed: its ids are those of the seed group, in order, and they are added to `assigned` |
| Vectors.ClustersPartitionIds | mprg/vectors.py:247-266 | every cluster is non-empty, holds only task ids, every id is in some cluster and no id in two |
| Groups.Zeros | mprg/vectors.py:204 | an n by n matrix |
| Groups.Set2 | mprg/vectors.py:208-212 | a cell assignment changes that cell and no other |
| Groups.SeedStart | mprg/vectors.py:250-256 | an unassigned position seeds a new cluster |
| Groups.SeedTake | mprg/vectors.py:259-262 | an unassigned later position linked to the seed joins its cluster |
| Groups.SeedSkip | mprg/vectors.py:259-262 | any other position is left for later |
| Groups.SeedPass | mprg/vectors.py:251-252 | an assigned position is passed over |
| Groups.SeedClose | mprg/vectors.py:264 | the seed's cluster is complete once its row is scanned |
| Groups.SeedFinish | mprg/vectors.py:250-266 | at the end the groups partition the positions and obey the seed rules |
| Groups.PositionsSpec | mprg/cluster.py:70-72 | the positions holding a value, in increasing order, and only those |
| Groups.PlacedSeed | mprg/task_analysis.py:88-96 | a run founding a family keeps every admitted run below the next placed exactly once |
| Groups.PlacedJoin | mprg/task_analysis.py:84-86 | a run joining family k keeps every admitted run placed exactly once |
| Groups.FirstFitJoin | mprg/task_analysis.py:74-86 | joining the first family whose representative links keeps the first-fit rule |
| Groups.FirstFitSeed | mprg/task_analysis.py:88-96 | a run linked to no representative founds a family and keeps the first-fit rule |
| Cluster.CleanChar | mprg/cluster.py:20 | every character becomes a space or a lower-case alphanumeric |
| Cluster.NormalizeAssumption | mprg/cluster.py:19-21 | the result is canonical (lower-case alphanumeric words separated by single spaces, no leading or trailing space) and has exactly the words of the cleaned text, in order |
| Cluster.CanonicalWordsJoin | mprg/cluster.py:21 | splitting a canonical text at whitespace and joining it with single spaces gives it back |
| Cluster.WordsJoin | mprg/cluster.py:21 | splitting words joined by single spaces gives those words back |
| Cluster.CleanCanonical | mprg/cluster.py:20 | cleaning a canonical text changes nothing |
| Cluster.NormalizeIdempotent | mprg/cluster.py:19-21 | normalising an already normalised assumption changes nothing |
| Cluster.Jaccard | mprg/cluster.py:24-30 | the similarity lies in [0, 1]; two empty sets give 1.0; it is 1.0 exactly when the sets are equal |
| Cluster.JaccardSymmetric | mprg/cluster.py:24-30 | the similarity does not depend on argument order |
| Cluster.RootOf | mprg/cluster.py:37-41 | following parents from an element ends at a root (an element that is its own parent) |
| Cluster.HalvingKeepsRoots | mprg/cluster.py:39 | `parent[i] = parent[parent[i]]` keeps the forest acyclic and changes the root of no element |
| Cluster.LinkRoots | mprg/cluster.py:46-47 | hanging root `b` under root `a` moves exactly the elements of `b`'s tree to `a` and keeps the forest acyclic |
| Cluster.Relabel | mprg/cluster.py:43-47 | the roots after one link: elements of the moved tree get the new root, all others keep theirs |
| Cluster.UnionFind.Root | mprg/cluster.py:37-41 | the root `find` reports is an element that is its own parent |
| Cluster.UnionFind.Roots | mprg/cluster.py:33-47 | the root of every element, in element order |
| Cluster.UnionFind.constructor | mprg/cluster.py:34-35 | `parent = list(range(size))`: every element is its own parent and root |
| Cluster.UnionFind.Find | mprg/cluster.py:37-41 | returns the root of `idx`; path halving changes the root of no element |
| Cluster.UnionFind.Union | mprg/cluster.py:43-47 | afterwards the elements of `b`'s old tree have `a`'s root and every other element keeps its root |
| Cluster.UnionFind.Link | mprg/cluster.py:46-47 | linking two distinct roots relabels exactly the tree of the second |
| Cluster.Normalized | mprg/cluster.py:97-101 | the counted keys, in reading order, are never empty |
| Cluster.NormalizedMembership | mprg/cluster.py:97-101 | a key is counted exactly when it is non-empty and some raw assumption normalises to it |
| Cluster.FirstLabel | mprg/cluster.py:103 | the label kept for a key normalises to that key |
| Cluster.FirstLabelIsFirst | mprg/cluster.py:103 | `setdefault` keeps the first raw assumption that normalises to the key |
| Cluster.FirstLabelNonEmpty | mprg/cluster.py:103 | a label is never empty |
| Cluster.CountKeys | mprg/cluster.py:105-109 | one sort key per counted key |
| Cluster.TopAssumptions | mprg/cluster.py:105-109 | at most three keys, each a counted key |
| Cluster.TopAssumptionsPick | mprg/cluster.py:105-109 | the top keys are the first min(3, #keys) entries of the keys ranked by a stable descending sort on their counts |
| Cluster.TopAssumptionsOrdered | mprg/cluster.py:105-109 | min(3, #keys) distinct keys, counts non-increasing, equal counts in first-seen order |
| Cluster.TopAssumptionsMostFrequent | mprg/cluster.py:105-109 | no key left out of the top three is more frequent than a listed one |
| Cluster.RankBeyondTop | mprg/cluster.py:105-109 | a key left out of the top is ranked after every listed key |
| Cluster.TopLabels | mprg/cluster.py:110-112 | the labels joined into the signature are those of the top keys, in rank order |
| Cluster.FamilySignature | mprg/cluster.py:110-116 | with no assumption that normalises to a non-empty text the signature is "Assumptions: None" followed by the steps part |
| Cluster.SignatureNoneIffNoAssumption | mprg/cluster.py:110-116 | the signature says "Assumptions: None" exactly when no member has an assumption that normalises to a non-empty text |
| Cluster.TallyStep | mprg/cluster.py:97-103 | reading one more raw assumption appends its key if non-empty, keeps every earlier label, and labels a new key with that raw text |
| Cluster.CountAssumptions | mprg/cluster.py:95-103 | the counting loops yield, for every counted key, its number of occurrences and its first label, with keys in first-seen order |
| Cluster.CountOne | mprg/cluster.py:98-103 | one inner iteration keeps that tally correct |
| Cluster.Increment | mprg/cluster.py:102 | `counts.get(key, 0) + 1` is stored under the key; no other entry changes |
| Cluster.SetDefault | mprg/cluster.py:103 | `setdefault` stores the value only under a new key; no existing entry changes |
| Cluster.CountStep | mprg/cluster.py:102 | counting one more non-empty key adds one to its count and to no other |
| Cluster.BuildFamilySignature | mprg/cluster.py:93-116 | the method computes the signature: top-three labels or "None", then the first three plan steps or "N/A" |
| Cluster.TallyTop | mprg/cluster.py:105-112 | the tally read in dict order equals the reference ranking and labels |
| Cluster.ConnectedSym | mprg/cluster.py:63-68 | "joined by a chain of linked pairs" is symmetric |
| Cluster.ConnectedTrans | mprg/cluster.py:63-68 | and transitive |
| Cluster.SingletonsConnected | mprg/cluster.py:59 | before any union every run is its own root and connected to itself |
| Cluster.UnionStep | mprg/cluster.py:67-68 | uniting a linked pair makes it share a root, keeps every shared root, and keeps every root's runs connected |
| Cluster.SkipStep | mprg/cluster.py:67 | a pair below both thresholds changes nothing |
| Cluster.RowDone | mprg/cluster.py:63-64 | once every row is done, every linked pair shares a root |
| Cluster.PathSameRoot | mprg/cluster.py:63-73 | every run along a chain of linked pairs has the root of the chain's start |
| Cluster.UnionLinked | mprg/cluster.py:63-68 | after the nested loops every linked pair shares a root, and runs sharing a root are connected |
| Cluster.Append | mprg/cluster.py:73 | `setdefault(root, []).append(idx)` adds `idx` to the end of the root's list and changes no other list |
| Cluster.ClustersGrouped | mprg/cluster.py:70-73 | the dict groups the run positions by root, keys in first-seen order, each list in increasing order |
| Cluster.GroupByRoot | mprg/cluster.py:70-73 | the loop builds that dict from the roots `find` reports and changes no root |
| Cluster.GroupedClusters | mprg/cluster.py:76 | every key of the dict is a root with a non-empty list of positions |
| Cluster.GroupsPartition | mprg/cluster.py:70-76 | the lists partition the runs and are ordered by their first run |
| Cluster.GroupsConnected | mprg/cluster.py:50-90 | two runs share a list exactly when a chain of linked pairs joins them |
| Cluster.RunIds | mprg/cluster.py:78 | the run ids of the members, in member order |
| Cluster.MakeFamilies | mprg/cluster.py:75-88 | one family per list of runs |
| Cluster.FamiliesShape | mprg/cluster.py:76-88 | family `k` is named `family_k` (counting from 1), lists its runs' ids in position order, and is represented by its first run |
| Cluster.MakeFamily | mprg/cluster.py:77-87 | one family: its id carries its number, its run ids follow the group's runs in order, and its first run represents it |
| Cluster.BuildFamilies | mprg/cluster.py:75-88 | the loop builds exactly those families |
| Cluster.BuildFamily | mprg/cluster.py:77-88 | one iteration builds the family at its position |
| Cluster.ClusterRuns | mprg/cluster.py:50-90 | no runs give no families; otherwise the families partition the runs, are listed in the order of their first run, and two runs share a family exactly when a chain of pairs with plan cosine >= plan threshold or assumption Jaccard >= assumption threshold joins them |
| TaskAnalysis.FallbacksFromRun | mprg/task_analysis.py:45-49 | nothing without a truthy `raw_json`; a non-empty result is the list stored at `raw_json.reasoning_summary.fallbacks` |
| TaskAnalysis.EmbeddingFromRun | mprg/task_analysis.py:130-133 | nothing without a truthy `raw_json`; a non-empty result is the list stored at `raw_json.embedding_vector` |
| TaskAnalysis.BuildSignatureText | mprg/task_analysis.py:31-42 | the signature is empty exactly when the stripped answer and the joined steps, assumptions and fallbacks are all empty |
| TaskAnalysis.OrEmpty | mprg/task_analysis.py:46-47 | `x or {}` always yields a dict |
| TaskAnalysis.FallbackStrings | mprg/task_analysis.py:45-49 | one string per fallback listed in `raw_json.reasoning_summary.fallbacks` |
| TaskAnalysis.NonEmpty | mprg/task_analysis.py:42 | the filtered parts are all non-empty |
| TaskAnalysis.NonEmptyAll | mprg/task_analysis.py:42 | nothing survives the filter exactly when every part is empty |
| TaskAnalysis.KeptGroups | mprg/task_analysis.py:42 | the line groups kept are those whose joined text is non-empty |
| TaskAnalysis.NonEmptyJoined | mprg/task_analysis.py:36-42 | filtering the joined parts equals joining the kept groups |
| TaskAnalysis.JoinGroups | mprg/task_analysis.py:42 | joining joined groups with "\n" joins all their lines |
| TaskAnalysis.SignatureLines | mprg/task_analysis.py:31-42 | for line-free items and a non-empty signature, its lines are exactly the answer, steps, assumptions and fallbacks in that order, empty parts dropped |
| TaskAnalysis.KeptFree | mprg/task_analysis.py:42 | lines free of line breaks stay free of them after filtering and flattening |
| TaskAnalysis.KeptMembers | mprg/task_analysis.py:42 | every kept group is one of the groups |
| TaskAnalysis.ValidRuns | mprg/task_analysis.py:58 | the valid runs are exactly the runs whose `is_valid` is truthy |
| TaskAnalysis.ValidRunsInOrder | mprg/task_analysis.py:58 | the valid runs are picked from the runs in their original order, run `i` being picked exactly when its `is_valid` is truthy |
| TaskAnalysis.RunIndex | mprg/task_analysis.py:107-111 | the first run whose `_id` or `run_id` equals the id, or none when no run matches |
| TaskAnalysis.FindRunById | mprg/task_analysis.py:107-111 | the search loop returns that first match |
| TaskAnalysis.RepresentativeFound | mprg/task_analysis.py:74-78 | a run with an id is found by its own id, at or before its position, so the `if not rep_run: continue` branch never fires for a family built by the loop |
| TaskAnalysis.Similarity | mprg/task_analysis.py:114-133 | embedding mode exactly when both runs carry a non-empty embedding list, then the cosine of the two; otherwise text mode with the ratio of the cached signatures (empty text when absent) |
| TaskAnalysis.CacheAt | mprg/task_analysis.py:63-71 | the cache never holds the empty id |
| TaskAnalysis.Keys | mprg/task_analysis.py:67 | the id of each run, `_id` first then `run_id` |
| TaskAnalysis.CacheStep | mprg/task_analysis.py:67-71 | visiting a run with an id stores its signature under that id; a run without one leaves the cache unchanged |
| TaskAnalysis.MirrorsJoin | mprg/task_analysis.py:84 | appending the run's id to family `k` mirrors adding its position to group `k` |
| TaskAnalysis.MirrorsSeed | mprg/task_analysis.py:88-96 | a new family `family_{n+1}`, represented by the run and listing only it, mirrors a new singleton group |
| TaskAnalysis.SeedMirrors | mprg/task_analysis.py:89-95 | the new family's name, representative and run ids |
| TaskAnalysis.SkipStep | mprg/task_analysis.py:67-69 | a run without an id is passed over and changes no family |
| TaskAnalysis.JoinStep | mprg/task_analysis.py:74-86 | a run that matches family `k` after failing all earlier families joins `k`, costing `k + 1` comparisons |
| TaskAnalysis.SeedStep | mprg/task_analysis.py:88-96 | a run that fails every family founds a new one, after one comparison per family |
| TaskAnalysis.RepresentativesFound | mprg/task_analysis.py:75-78 | the representative of every family is found among the valid runs |
| TaskAnalysis.JoinsDecided | mprg/task_analysis.py:80-83 | comparing with the found representative under the mode's threshold decides whether the run joins |
| TaskAnalysis.ReadyStep | mprg/task_analysis.py:66-71 | a run without an id, or one whose signature can be built, extends the prefix of runs that does not raise |
| TaskAnalysis.CompareRep | mprg/task_analysis.py:75-83 | one comparison: its mode is embedding exactly when both runs carry embeddings, and the run joins exactly when the similarity clears that mode's threshold |
| TaskAnalysis.AgainstSum | mprg/task_analysis.py:81 | every comparison falls in exactly one of the two modes |
| TaskAnalysis.TallyStep | mprg/task_analysis.py:81 | each comparison adds one to the count of its own mode and leaves the other |
| TaskAnalysis.CountedCompare | mprg/task_analysis.py:75-83 | one comparison decides the join and is tallied under its mode |
| TaskAnalysis.FindFamily | mprg/task_analysis.py:72-86 | the inner loop stops at the first family the run matches, or reports none; the comparisons it makes are tallied per mode, one per family tried |
| TaskAnalysis.FindRep | mprg/task_analysis.py:72-86 | the loop over the families' representatives stops at the first one the run joins, having rejected every one before it, and tallies one comparison per representative tried in the mode used |
| TaskAnalysis.ModeCountSeed | mprg/task_analysis.py:74-96 | a run founding a family adds one comparison with each earlier representative, in its mode |
| TaskAnalysis.ModeCountJoin | mprg/task_analysis.py:74-86 | a run joining family `k` adds its comparisons with the representatives of families `0 .. k`, in their modes |
| TaskAnalysis.CountedJoin | mprg/task_analysis.py:74-86 | after a join the per-mode counts are those of the grown groups |
| TaskAnalysis.CountedSeed | mprg/task_analysis.py:88-96 | after a seed the per-mode counts are those of the groups with the new family |
| TaskAnalysis.FirstFitFamilies | mprg/task_analysis.py:62-96 | it raises at the first run with an id whose signature cannot be built; otherwise every run with an id is placed first-fit in creation order, and each mode's count is the number of comparisons the placement makes in that mode |
| TaskAnalysis.PlaceRun | mprg/task_analysis.py:71-96 | one outer turn places the run first-fit and adds its comparisons to each mode's count |
| TaskAnalysis.ComputeFamiliesAndRobustness | mprg/task_analysis.py:52-104 | fewer than two valid runs give no families, "INSUFFICIENT_DATA" and only `valid_runs`; otherwise families placed first-fit, `Status` "FRAGILE" exactly when there is one family and "ROBUST" otherwise, metrics with the valid-run count, the family count, the status and each mode's count the comparisons made in that mode; it raises exactly when there are at least two valid runs and one with an id has a `raw_json` its signature cannot be read from; the error is always `None` |
| TaskAnalysis.FamilyOfRun | mprg/task_analysis.py:66-96 | every run with an id is in exactly one family, listed at its place; a run without an id is in none |
| TaskAnalysis.PlaceOfRun | mprg/task_analysis.py:66-96 | the family and place of a run with an id |
| TaskAnalysis.RunIdAt | mprg/task_analysis.py:84 | a family lists at each place the id of the run in the same place of its group |
| TaskAnalysis.FamilyShape | mprg/task_analysis.py:88-96 | family `k` is named `family_{k+1}`, is non-empty, is represented by its first run; names are distinct; families come in the order of their first runs |
| TaskAnalysis.DistinctNames | mprg/task_analysis.py:89 | the names `family_1`, `family_2`, ... are pairwise distinct |
| TaskAnalysis.NoIdsNoFamilies | mprg/task_analysis.py:66-69 | when no valid run has an id no family forms, and the status is then "ROBUST" |
| TaskAnalysis.FirstPlacedHasId | mprg/task_analysis.py:66-96 | the first family starts with a run that has an id |
| Grouper.SpaceRun | mprg/grouper.py:171 | the longest prefix of whitespace (`\s*`) |
| Grouper.LowerRun | mprg/grouper.py:171 | the longest prefix of lower-case letters (`[a-z]+` runs greedily) |
| Grouper.ConstantAt | mprg/grouper.py:171 | the length of the match of `,\s*[A-Z][a-z]+\)` at the start, 0 when there is none |
| Grouper.ConstantAtMatch | mprg/grouper.py:171 | a reported match is a comma, whitespace, one upper-case letter, lower-case letters and a closing parenthesis; the match is the only one at that position, so 0 means the pattern does not match there |
| Grouper.SubConstantsIdempotent | mprg/grouper.py:171 | `SubConstants`, the `re.sub` replacing each such constant by `, X)`, is idempotent: rewriting a rewritten predicate changes nothing |
| Grouper.SubConstantsNoComma | mprg/grouper.py:171 | a predicate without a comma is not rewritten |
| Grouper.NormalizePredicates | mprg/grouper.py:165-173 | one rewritten predicate per predicate, in order |
| Grouper.FolSimilarity | mprg/grouper.py:125-163 | the similarity lies in [0, 1] and is 1.0 for equal structure hashes |
| Grouper.FolSimilarityUncapped | mprg/grouper.py:143-163 | with different hashes the predicate term is at most 0.6 and the assumption term at most 0.4, so the `min(score, 1.0)` cap never changes their sum |
| Grouper.FolSimilaritySymmetric | mprg/grouper.py:125-163 | the similarity does not depend on argument order |
| Grouper.PredicateTermSymmetric | mprg/grouper.py:143-151 | nor does the predicate-overlap term |
| Grouper.AssumptionTermSymmetric | mprg/grouper.py:153-161 | nor the assumption-overlap term |
| Grouper.FolMatrix | mprg/grouper.py:106-123 | an n by n matrix |
| Grouper.FolMatrixShape | mprg/grouper.py:111-123 | the matrix has 1.0 on its diagonal, is symmetric, and every entry lies in [0, 1] |
| Grouper.ComputeFolSimilarity | mprg/grouper.py:106-123 | the nested loops, which write each off-diagonal pair twice, yield exactly that matrix |
| Grouper.Common | mprg/grouper.py:307-308 | keeps exactly the keys counted at least `min_count` times |
| Grouper.FindCommon | mprg/grouper.py:304-308 | `_find_common` returns each item occurring at least `min_count` times exactly once, in the order of its first occurrence, and nothing else |
| Grouper.CommonOrder | mprg/grouper.py:307-308 | keys in first-seen order give common items in first-seen order |
| Grouper.CommonDistinct | mprg/grouper.py:307-308 | distinct keys give a duplicate-free result |
| Grouper.PairCountAll | mprg/grouper.py:258-266 | the pair loops count k(k-1)/2 pairs, so `count > 0` exactly when there are two or more members |
| Grouper.RowSumBounds | mprg/grouper.py:261-265 | entries in [0, 1] give a row sum between 0 and the number of its terms |
| Grouper.PairSumBounds | mprg/grouper.py:260-266 | entries in [0, 1] give a pair sum between 0 and the number of pairs |
| Grouper.AverageBounds | mprg/grouper.py:268-273 | the average, or 1.0 when nothing was summed, lies in [0, 1] |
| Grouper.AssumptionLists | mprg/grouper.py:247-249 | one assumption list per member |
| Grouper.AgentIds | mprg/grouper.py:244 | one agent id per member |
| Grouper.MakeFamilySpec | mprg/grouper.py:235-285 | `MakeFamily` builds the family that lists the members' ids in order, takes the key idea and the first 300 characters of the explanation of the first member; both similarities lie in [0, 1] and are 1.0 for a single member; the combined score is their mean |
| Grouper.CreateFamily | mprg/grouper.py:235-285 | the method computes that family |
| Grouper.SumPairs | mprg/grouper.py:255-266 | the pair loops compute both sums over the member pairs and their number |
| Grouper.SingleFamily | mprg/grouper.py:287-302 | the item alone, all its assumptions and its key idea shared, every similarity 1.0, the pattern and explanation the first 200 and 300 characters of the item's |
| Grouper.SingleFamilyAgrees | mprg/grouper.py:287-302 | the single-member family agrees with `_create_family` on one member except that it keeps every assumption rather than only the repeated ones |
| Grouper.DualLinks | mprg/grouper.py:215-220 | a position may join a seed exactly when both similarities reach their thresholds |
| Grouper.FamiliesOf | mprg/grouper.py:224-231 | one family per group |
| Grouper.FamiliesSnoc | mprg/grouper.py:224-231 | closing a group appends its family with the next fresh id |
| Grouper.RowBeyond | mprg/grouper.py:211-222 | the seed's row holds only positions already scanned |
| Grouper.ClusterDualLayer | mprg/grouper.py:186-233 | the groups are the greedy seed grouping under "both thresholds met": each unassigned position seeds a group and takes every later unassigned position it links to; the families are built from those groups in order |
| Grouper.Explanations | mprg/grouper.py:181 | one explanation per item |
| Grouper.SemanticMatrix | mprg/grouper.py:175-184 | an n by n matrix |
| Grouper.Group | mprg/grouper.py:72-104 | no items give no families; one item gives the single-member family; otherwise the seed grouping over the FOL and semantic matrices and the families built from it |
| Grouper.GroupMembership | mprg/grouper.py:186-233 | every item is a member of exactly one family, the family of its group, at its place in the group |
| Generator.NotIn | mprg/generator.py:118-119 | keeps, in order, exactly the keys not in the set |
| Generator.NumberedPrefixMembers | mprg/generator.py:138 | the prefix set `{"1.", ..., "9."}` holds exactly a digit from 1 to 9 followed by a dot |
| Generator.StepErrorSpec | mprg/generator.py:132-139 | `StepError`: a step is rejected exactly when, stripped and lower-cased, it starts with "step", with a digit that is its only character or is followed by another digit, or with a digit 1-9 and a dot ("5" and "12 apples" are rejected, "5 apples" is kept); a "step" prefix gets the 'Step' message, the others the numbering message |
| Generator.StepErrors | mprg/generator.py:132-139 | the verdict on each step, in order |
| Generator.FirstSome | mprg/generator.py:132-139 | nothing is reported exactly when no verdict is an error |
| Generator.FirstSomeAt | mprg/generator.py:132-139 | the first error found is the one reported |
| Generator.PlanStepsError | mprg/generator.py:132-139 | the step check passes exactly when no step is rejected |
| Generator.PlanStepsFirst | mprg/generator.py:132-139 | the message reported is that of the first rejected step |
| Generator.ListFieldsError | mprg/generator.py:129-131 | the list check passes exactly when every field is a list of strings; otherwise it names a field that is not |
| Generator.ValidateReasoningSummary | mprg/generator.py:111-140 | the verdict is `True` exactly when no message is given |
| Generator.ValidateAccepts | mprg/generator.py:111-140 | the validator accepts exactly the conforming summaries: a dict with exactly the schema keys, non-blank `agent_role` and `final_answer`, the requested `task_id`, five lists of strings, and no numbered plan step |
| Generator.ListFieldsCovers | mprg/generator.py:129-131 | the five list checks pass exactly when the five lists are lists of strings |
| Generator.ValidateKeyErrors | mprg/generator.py:114-122 | a non-dict gets "Output is not a JSON object."; a wrong key set gets the missing keys in schema order or, only when none is missing, the extra keys in the dict's order |
| Generator.ExtraWhenNoneMissing | mprg/generator.py:117-122 | with every schema key present, a differing key set has at least one extra key, so the extra-keys message is never empty |
| Generator.SummaryToDict | mprg/generator.py:111-140 | `asdict(summary)` has exactly the schema keys, in schema order |
| Generator.ConformsKeys | mprg/generator.py:123-131 | a conforming dict holds the five lists of strings, a non-blank role and answer, and the requested task id |
| Generator.SummaryDictValues | mprg/generator.py:111-140 | each entry of the summary's dict holds the matching field |
| Generator.SummaryConforms | mprg/generator.py:111-140 | a summary's dict conforms exactly when its role and answer are not blank and no plan step reads as numbered |
| Generator.SummaryRoundTrip | mprg/generator.py:111-140 | a conforming summary's dict reads back as the same summary |
| Generator.NumberedLines | mprg/generator.py:158 | step `i` becomes `"{i+1}. {step}"` |
| Generator.Bullets | mprg/generator.py:159-160 | every item becomes `"- {item}"` |
| Generator.EmbedLinesOf | mprg/generator.py:157-161 | three heading lines plus one line per step, assumption and fallback, an empty list giving one empty line |
| Generator.DeterministicEmbedInput | mprg/generator.py:157-161 | the embedding input is always its heading and entry lines joined by line breaks, an empty list leaving an empty line under its heading |
| Generator.EmbedLines | mprg/generator.py:157-161 | for line-free items the embedding input splits into `PLAN:`, the numbered steps, `ASSUMPTIONS:`, the bulleted assumptions, `FALLBACKS:`, the bulleted fallbacks, an empty list giving one empty line |
| Generator.LinesOf | mprg/generator.py:158-160 | a joined list leaves its entries as lines, or one empty line when it has none |
| Generator.NumberedFree | mprg/generator.py:158 | numbering line-free steps leaves no line break in any line |
| Generator.BulletsFree | mprg/generator.py:159-160 | bulleting line-free items leaves no line break in any line |
| Generator.ClampAgents | mprg/generator.py:199 | the agent count is clamped to [3, 5] and kept when already inside |
| Generator.NormalizeBaseUrl | mprg/generator.py:190-197 | the base URL loses its trailing slashes and then one trailing "/v1" (`x/v1/` and `x/v1` give `x`, `x/` gives `x`); the result is a prefix of the URL, and a URL ending in neither is kept |
| Generator.InitError | mprg/generator.py:179-187 | construction fails exactly for OpenAI without a key, or Anthropic without a key or without the package |
| Generator.NewGenerator | mprg/generator.py:167-201 | on success the settings keep the provider, the two model names and `enable_embeddings`; each of the OpenAI, Anthropic and Voyage keys is the argument when truthy, else the environment variable; the agent count is clamped and the argument, environment or default base URL normalised; otherwise the error of `InitError` |
| Generator.CountValid | mprg/generator.py:231 | the valid runs are at most all runs |
| Generator.MetaCounts | mprg/generator.py:219-245 | one run per role, valid plus invalid equals total equals the agent count; all valid exactly when every run is valid, none exactly when no run is |
| Generator.CountValidAll | mprg/generator.py:231 | the count equals the number of runs exactly when all are valid, and is 0 exactly when none is |
| Models.MissingNone | mprg/models.py:60-62 | no required key is reported missing exactly when all eight are present |
| Models.ListsChecked | mprg/models.py:71-74 | the list loop passes exactly when the five list fields are lists of strings |
| Models.FromDict | mprg/models.py:34-45 | each field of the summary is the value stored under its key |
| Models.StrListOf | mprg/models.py:48-49 | a list of strings is rebuilt from its strings |
| Models.SummaryError | mprg/models.py:52-76 | a failing check always gives a non-empty message |
| Models.SummaryErrorAccepts | mprg/models.py:52-76 | every check passes exactly on the accepted dicts: all required keys, non-blank role and answer, the requested task id as a string, five lists of strings |
| Models.ValidateSummary | mprg/models.py:52-76 | `ok` holds exactly when a summary is returned, exactly when the message is empty, exactly on accepted dicts; the summary is `from_dict(data)` and carries the requested task id |
| Models.MissingKeysReported | mprg/models.py:60-62 | a dict missing a required key is rejected with the missing keys in schema order and no summary |
| Models.ExtraKeysIgnored | mprg/models.py:52-76 | adding a key outside the schema does not change the verdict |
| Models.StrictImpliesLenient | mprg/models.py:52-76 | whatever passes the generator's strict check passes this one |
| Models.ValidateRoundTrip | mprg/models.py:52-76 | a summary with non-blank role and answer validates and reads back as itself |
| Models.FromDictRoundTrip | mprg/models.py:34-45 | `from_dict(asdict(s)) == s` |
| Models.StrListInjective | mprg/models.py:48-49 | two string lists with the same JSON form are equal |
| Runner.NewRunner | mprg/runner.py:86-103 | each key is the argument unless falsy, else the environment's; the agent count is capped at the number of prompt variants and otherwise kept |
| Runner.RunCount | mprg/runner.py:114-115 | the count is the argument unless it is `None` or 0, else the runner's own, clamped to [1, 5] |
| Runner.RunVariants | mprg/runner.py:114-116 | `run` uses the first `count` prompt variants, between one and five of them |
| Runner.RunVariantsDistinct | mprg/runner.py:35-76 | every agent of a run gets a variant with a different id |
| Runner.DefaultRunCount | mprg/runner.py:103-116 | without a count of its own, a run uses the constructor's count clamped to [1, 5], the same as passing 0 |
| Runner.MinFound | mprg/runner.py:221-232 | the minimum over the indices other than -1, or -1 exactly when every index is -1 |
| Runner.MinFoundSnoc | mprg/runner.py:224-227 | one more index moves the minimum to it exactly when it is found and smaller |
| Runner.Finds | mprg/runner.py:225 | one `find` result per marker, each -1 or a position in the text |
| Runner.Earliest | mprg/runner.py:224-232 | the earliest index found lies in [-1, len] |
| Runner.EarliestOccurrence | mprg/runner.py:224-232 | the index kept is -1 exactly when no marker occurs; otherwise some marker occurs there and none occurs earlier |
| Runner.FindEarliest | mprg/runner.py:224-227 | the marker loop computes that earliest index |
| Runner.Parsed | mprg/runner.py:208-249 | both the plan and the explanation are stripped: neither starts or ends with whitespace |
| Runner.ParseResponse | mprg/runner.py:208-249 | the method computes the plan and the explanation `_parse_response` returns |
| Runner.MarkedSections | mprg/runner.py:235-241 | `Sections`: with both markers found the two sections tile the text from the first marker on, the earlier marker's section ending where the later one begins |
| Runner.UnmarkedHalves | mprg/runner.py:243-247 | `Halves`: without both markers the stripped text is cut between its lines, the plan getting the first half (rounded down); a one-line text is all explanation |
| Translator.AlnumLen | translator.py:23 | the longest alphanumeric prefix |
| Translator.AlnumRuns | translator.py:23 | `re.findall(r"[A-Za-z0-9]+")` yields non-empty alphanumeric tokens |
| Translator.AlnumRunsLayout | translator.py:23 | the text is the tokens in order with gaps free of letters and digits around them, a non-empty gap between any two: the tokens are exactly the maximal alphanumeric runs |
| Translator.ToConstant | translator.py:22-24 | a constant is never empty |
| Translator.AlnumOnly | translator.py:23 | the alphanumeric characters of a text, in order |
| Translator.AlnumOnlyConcat | translator.py:23 | keeping alphanumerics distributes over concatenation |
| Translator.AlnumOnlyAll | translator.py:23 | an alphanumeric text is kept whole |
| Translator.CapitalizeSpells | translator.py:24 | `token.capitalize()` keeps the token's letters, case aside, and starts with no lower-case letter |
| Translator.RunsSpell | translator.py:23-24 | the capitalised tokens, joined, spell the text's alphanumerics |
| Translator.RunSpells | translator.py:23-24 | a leading token followed by spelling text spells |
| Translator.SpellConcat | translator.py:24 | spelling carries over to concatenations |
| Translator.ToConstantSpells | translator.py:22-24 | the constant is alphanumeric; it is "Unknown" exactly when the text has no letter or digit; otherwise it spells the text's letters and digits in order, case aside, and starts upper-case or with a digit |
| Translator.CapitalizeLetters | translator.py:24 | `capitalize()` upper-cases the first character, lower-cases every other one and keeps the length |
| Translator.CapitalizedLetters | translator.py:24 | joining capitalised tokens puts each token, capitalised, at its offset, and nothing else |
| Translator.ToConstantLetters | translator.py:22-24 | no token gives "Unknown"; otherwise the constant is the tokens found, each capitalised, joined in order at their offsets |
| Translator.SpaceEnd | translator.py:28 | `\s*` runs greedily to the first non-whitespace |
| Translator.DigitEnd | translator.py:28 | `\d+` runs greedily to the first non-digit |
| Translator.LineEnd | translator.py:28 | `.+` stops at the first line feed or the end |
| Translator.LastNonNewline | translator.py:28 | the last character before the bound that is not a line feed |
| Translator.RestOfLine | translator.py:28-30 | `\s*(.+)$` leaves the whitespace before the group and ends the group at the end of the line |
| Translator.HeaderAtShape | translator.py:28 | `HeaderAt`: a section header found at a position starts there with spaces, digits, a dot, spaces and a non-empty title |
| Translator.RestOfLineFree | translator.py:29-30 | on a line without line feeds `\s*(.+)$` matches exactly when a character is left, and the group ends at the end of the line |
| Translator.StepMatchShape | translator.py:57-59 | `StepMatch`: `STEP_PATTERN` matches exactly when, after the leading blanks, a non-empty label run is followed by a colon and at least one more character; the step is the stripped label and the stripped rest after the blanks that follow the colon |
| Translator.BulletMatchShape | translator.py:61-63 | `BulletMatch`: `BULLET_PATTERN` matches exactly when, after the leading blanks, a `-` or `•` is followed by at least one more character; the detail is the stripped rest after the blanks that follow it |
| Translator.LineStepCases | translator.py:52-65 | `LineStep`: a line gives a step exactly when, stripped, it is non-empty and one pattern matches; the step pattern wins, and a bullet's label is its first three words or "Step" |
| Translator.Headers | translator.py:36 | `finditer` reports headers at line starts, in increasing order and without overlap |
| Translator.HeadersMatch | translator.py:36 | every header reported is the pattern's match at its start |
| Translator.NoHeaders | translator.py:36-48 | without a header, the pattern matches at no line start |
| Translator.LabelEnd | translator.py:29 | `[A-Za-z0-9 &'"/-]+` runs greedily |
| Translator.StripFree | translator.py:53 | stripping keeps a line free of line feeds |
| Translator.LineSteps | translator.py:52-65 | at most one step per line |
| Translator.LineStepsSnoc | translator.py:52-65 | each line adds its step, if any, at the end |
| Translator.SplitLinesFree | translator.py:52 | the lines of `splitlines()` hold no line feed |
| Translator.Pieces | translator.py:68 | `re.split(r"[.!?]\s+")` gives at least one piece |
| Translator.PiecesUnbroken | translator.py:68 | no piece holds a sentence end followed by whitespace |
| Translator.PiecesLayoutFrom | translator.py:68 | the split from a scanning position cuts the rest of the text into its pieces and the separators between them |
| Translator.SentencePieces | translator.py:68 | the text is the pieces with a separator (a sentence end and the whole whitespace run after it) between each two, no later piece starting with whitespace, and no piece holds a sentence end followed by whitespace |
| Translator.NonBlank | translator.py:68 | the stripped sentences kept are non-empty |
| Translator.SentenceSteps | translator.py:66-71 | the sentence fallback always yields at least one step |
| Translator.StepsOf | translator.py:50-71 | `_extract_steps` never returns an empty list |
| Translator.ExtractSteps | translator.py:50-71 | the method computes those steps |
| Translator.SectionList | translator.py:38-46 | one segment per header, made of its title and body |
| Translator.Keep | translator.py:45-46 | only segments with steps are kept |
| Translator.KeepAll | translator.py:45-46 | nothing is dropped when every segment has steps |
| Translator.KeepSnoc | translator.py:45-46 | each segment is kept exactly when it has steps |
| Translator.SectionsOnePerHeader | translator.py:38-47 | since every body yields steps, no header's segment is dropped |
| Translator.ParseShape | translator.py:32-48 | blank text gives no segments; text without a header gives one "ReasoningChain" segment over the whole stripped text; otherwise one segment per header with that header's title and body |
| Translator.SegmentsOf | translator.py:32-48 | every segment parsed has at least one step |
| Translator.Parse | translator.py:32-48 | the method computes those segments |
| Translator.StepFacts | translator.py:79-83 | two facts per step |
| Translator.Block | translator.py:76-83 | one `Chain` fact and two facts per step |
| Translator.FolLineCount | translator.py:74-84 | one `Chain` line per segment and two lines per step |
| Translator.StepFactsAt | translator.py:79-83 | step `j` of a chain gives `Step(chain, j+1, label)` and then `Supports(label, detail)` |
| Translator.StepFactsSnoc | translator.py:79-83 | each step appends its two facts |
| Translator.FolLinesSnoc | translator.py:76-83 | each segment appends its block |
| Translator.AppendBlock | translator.py:77-83 | the inner loop appends one segment's block |
| Translator.SegmentsToFol | translator.py:74-84 | the method joins those lines with line feeds |
| Translator.Translate | translator.py:90-94 | only blank text translates to `None` |
| Translator.ConstFree | translator.py:22-24 | a constant holds no line feed |
| Translator.StepFactsFree | translator.py:79-83 | no fact of a step holds a line feed |
| Translator.FactsFree | translator.py:82-83 | the two facts of one step hold no line feed |
| Translator.LinesFreeAppend | translator.py:82-83 | appending line-free facts keeps the lines line-free |
| Translator.FolLinesFree | translator.py:74-84 | no FOL line holds a line feed |
| Translator.BlockFree | translator.py:76-83 | no line of one segment's block holds a line feed |
| Translator.TranslateLines | translator.py:90-94 | the translation splits back into exactly its FOL lines: one `Chain` line per segment and two lines per step |
| Orchestrator.RunToDoc | mprg/orchestrator.py:122-134 | a new document copies the run's id, agent role, summary, raw response, error, elapsed time, attempt count and validity, and has an empty plan embedding |
| Orchestrator.Robustness | mprg/orchestrator.py:55 | the status is "FRAGILE" or "ROBUST" |
| Orchestrator.RobustnessFragile | mprg/orchestrator.py:55 | it is "FRAGILE" exactly for one family |
| Orchestrator.OneFamilyIffConnected | mprg/orchestrator.py:55 | there is exactly one family exactly when there are runs and every two of them are joined by a chain of similar pairs |
| Orchestrator.SecondGroupOutsideFirst | mprg/orchestrator.py:55 | a second family holds a run outside the first |
| Orchestrator.OneValue | mprg/orchestrator.py:120 | `len(set(s)) == 1` exactly when `s` is non-empty and constant |
| Orchestrator.AnswersAgree | mprg/orchestrator.py:115-120 | no runs never agree and a single run always does |
| Orchestrator.CheckAnswerAgreement | mprg/orchestrator.py:115-120 | the answers agree exactly when there is at least one run and every `AnswerKey` (the final answer stripped and lower-cased) is the same |
| Orchestrator.KeysAgree | mprg/orchestrator.py:116-120 | the loop's normalised answers agree exactly when the runs' answers do |
| Orchestrator.AssumptionSet | mprg/orchestrator.py:78-80 | the empty normal form is never in the set, and no assumptions give the empty set |
| Orchestrator.AssumptionSetNormalized | mprg/orchestrator.py:78-80 | the assumption set holds every non-empty normal form of the run's assumptions, and only non-empty normal forms |
| Orchestrator.ClusterValidRuns | mprg/orchestrator.py:68-113 | no runs give no families, a count of 0 and no agreement; otherwise one record per run, families that partition the runs by "joined by a chain of similar pairs", one document per family carrying the family count, its robustness and the answer agreement |
| Orchestrator.ValidRuns | mprg/orchestrator.py:49 | the valid runs are exactly the runs flagged valid |
| Orchestrator.ValidRunsInOrder | mprg/orchestrator.py:49 | the valid runs are picked from the runs in their original order, run `i` being picked exactly when it is flagged valid |
| Orchestrator.ClusterAndUpdate | mprg/orchestrator.py:47-66 | the given task becomes "COMPLETED" with the total and valid run counts and the family count; "FRAGILE" for exactly one family and "ROBUST" otherwise, one family exactly when there are valid runs and every two are joined by a chain of similar pairs; the groups are exactly the classes of that relation; the payload holds, per family, the document of the family `cluster_runs` builds with the update's metrics; `answers_agree` as the agreement check on the valid runs |
| Orchestrator.EligibleCount | mprg/orchestrator.py:137 | at most all documents are eligible |
| Orchestrator.EligibleIndices | mprg/orchestrator.py:137 | the positions of the valid documents with a summary, in order |
| Orchestrator.EligibleIndicesRank | mprg/orchestrator.py:137-143 | the k-th eligible position has rank k, and every eligible position is listed at its rank |
| Orchestrator.PlanTexts | mprg/orchestrator.py:140 | one plan text per eligible document |
| Orchestrator.Attached | mprg/orchestrator.py:142-143 | the documents after attaching, as many as before |
| Orchestrator.AttachedInOrder | mprg/orchestrator.py:136-143 | the k-th eligible document gets the k-th embedding, the rest are untouched, and with none eligible nothing changes |
| Orchestrator.AttachEmbeddings | mprg/orchestrator.py:136-143 | with no eligible document the array is unchanged; otherwise it becomes the documents with the embeddings of their plan texts attached in order |
| Planner.Getenv | planner.py:248-250 | `os.getenv(name)` is present exactly when the variable is set |
| Planner.InitSucceeds | planner.py:69-97 | `InitError` is absent, so construction succeeds, exactly for "openai" with an OpenAI key or "anthropic" with an Anthropic key; "voyage" raises the Voyage message |
| Planner.ProviderPrecedence | planner.py:58-67 | `RequestedProvider`: an explicit provider wins over `PLANNER_PROVIDER`, which wins over `LLM_PROVIDER`, each stripped and lower-cased; with none set the keys decide, OpenAI first, then Anthropic, then Voyage |
| Planner.ResolvedProvider | planner.py:58-67 | a requested provider is kept; with none requested the result is empty exactly when no key is present |
| Planner.BlankProviderFallsBack | planner.py:58-67 | a provider made only of whitespace counts as no provider |
| Planner.PlanningClient.OpenAI | planner.py:69-78 | an OpenAI client keeps its key and model and no other provider's |
| Planner.PlanningClient.Anthropic | planner.py:79-88 | an Anthropic client keeps its key and model and no other provider's |
| Planner.PlanningClient.AnthropicRequest | planner.py:145-163 | the request body has the client's model, 800 max tokens and the payload's temperature; the non-system contents joined by blank lines form the one user message; `system` is present exactly when the last system message is non-empty, and is that message |
| Planner.NewPlanningClient | planner.py:48-97 | the client for the chosen provider with that provider's key and model, or exactly the error `InitError` names |
| Planner.BuildPayload | planner.py:108-124 | a system message followed by the prompt as the one user message |
| Planner.UserChunks | planner.py:149-155 | at most one chunk per message |
| Planner.SystemPromptIsLast | planner.py:149-155 | the system prompt is the content of the last system message, empty without one |
| Planner.UserChunksCount | planner.py:149-155 | without system messages every content is a user chunk, in order |
| Planner.AnthropicPlanningRequest | planner.py:101-163 | a planning payload reaches Anthropic with the planning instructions as `system` and the prompt, unchanged, as the user message |
| Planner.LabelsFree | planner.py:200-203 | the field labels hold no line feed |
| Planner.PromptFields | planner.py:195-212 | `BuildPrompt`: for single-line fields the prompt's first lines are `Goal:`, `Task Name:`, `Context:` and `Required Deliverable:` with their values, followed by the instructions |
| Planner.Plan | planner.py:187-193 | one result per task, in order, each holding the plan generated for that task's prompt |
| Planner.StripTrimmed | planner.py:254 | stripping a trimmed text changes nothing |
| Planner.StripCharAbsent | planner.py:259 | `strip(c)` keeps a text that neither starts nor ends with `c` |
| Planner.FindAfterName | planner.py:257 | in `name=value` with a name free of `=`, the first `=` follows the name |
| Planner.ParseEnvLine | planner.py:254-259 | blank lines give nothing; a parsed line held a `=` and was not a comment, its name is stripped, and its value neither starts nor ends with a single quote |
| Planner.KeysFromEnv | planner.py:248-250 | before the `.env` file each key is its environment variable and the environment is unchanged |
| Planner.EnvLineRoundTrip | planner.py:253-259 | a line `name=value` with a trimmed, uncommented name and a trimmed, unquoted value parses back to that name and value |
| Planner.ApplyLinesStep | planner.py:253-268 | each line is applied after the ones before it |
| Planner.LoadEnvKeys | planner.py:247-269 | the loop yields the three keys, and the environment, that applying the `.env` lines to the environment's keys gives |
| Planner.FirstFileValue | planner.py:253-268 | a value taken from the file is never empty |
| Planner.KeyVarsDistinct | planner.py:248-250 | the three variable names differ |
| Planner.ApplyLineKey | planner.py:260-268 | a line changes a key only when it is unset or empty and the line gives its name a non-empty value; the environment follows the key |
| Planner.OfferKey | planner.py:260-268 | `Offer`: one name-value pair changes a key under the same rule |
| Planner.OfferKeys | planner.py:260-268 | one iteration of the loop changes the three keys and the environment as `Offer` says |
| Planner.EnvPrecedence | planner.py:247-269 | a key set and non-empty in the environment wins; otherwise the first non-empty value the file gives it; otherwise the environment's own (unset or empty); the environment ends up holding the key |
| Planner.OtherVariablesKept | planner.py:247-269 | every variable other than the three keys keeps its value |
| Planner.ApplyLineOther | planner.py:253-268 | one line leaves every other variable alone |
| Planner.OfferOther | planner.py:260-268 | so does one name-value pair |
| Text.Lower | mprg/generator.py:133 | `str.lower` maps each upper-case ASCII letter to its lower-case form and keeps every other character |
| Text.Strip | mprg/task_analysis.py:32 | `str.strip()` removes leading and trailing whitespace only, and is empty exactly for all-whitespace text |
| Text.StripSlice | mprg/task_analysis.py:32 | the stripped text is a slice of the text |
| Text.RStripChar | mprg/generator.py:194 | `rstrip("/")` removes exactly the trailing slashes |
| Text.StripChar | planner.py:259 | `strip(c)` removes the leading and trailing `c` characters only; the result neither starts nor ends with `c` |
| Text.StripCharSlice | planner.py:259 | the result of `strip(c)` is a slice of the text, and everything before and after that slice is `c` |
| Text.Split | mprg/runner.py:244 | `split('\n')` gives at least one piece and no piece holds the separator |
| Text.SplitJoin | mprg/runner.py:244-247 | joining the pieces of `split(c)` with `c` gives the text back |
| Text.JoinSplit | mprg/task_analysis.py:42 | parts free of the separator, joined, split back into those parts |
| Text.SplitLines | translator.py:52 | `splitlines()` gives no lines exactly for the empty text |
| Text.LineLenClean | translator.py:52 | a line, cut at the first line break, holds no line break |
| Text.SplitLinesLayout | translator.py:52 | the text is its lines, each followed by its ending: no line holds a break, every ending is a line ending (only the last may be empty), a lone "\r" ending is never directly followed by "\n", the last line and its ending are not both empty |
| Text.Words | mprg/cluster.py:21 | `str.split()` gives non-empty words without whitespace |
| Text.WordsLayout | mprg/cluster.py:21 | the text is the words in order with whitespace-only gaps around them, a non-empty gap between any two: `split()` keeps every maximal run of non-whitespace and nothing else |
| Text.Find | mprg/runner.py:225 | `find` gives the first index at which the pattern occurs, or -1 exactly when it occurs nowhere |
| Text.NatToString | mprg/cluster.py:83 | a number renders as a non-empty string of digits |
| Text.ParseNatToString | mprg/cluster.py:83 | parsing the rendering of a number gives the number back |
| Text.PrefixNamesInjective | mprg/task_analysis.py:89 | `family_{a}` and `family_{b}` are equal only when `a == b` |
| Text.OrElse | mprg/generator.py:180 | `a or b` on optional strings is `a` unless it is `None` or empty |
| Json.Json.Get | mprg/task_analysis.py:46-48 | `d.get(key)` is present exactly when the key is, and is then its value |
| Json.StrList | mprg/models.py:48-49 | a list of strings is a JSON list of strings whose strings are those given |
| Sorting.SortDesc | mprg/cluster.py:105-109 | `sorted(..., reverse=True)` on the counts lists every position once, keys non-increasing, equal keys in their original order |
| Collections.Take | mprg/grouper.py:284 | `s[:n]` is the first `min(n, len(s))` elements |
| Collections.Pick | mprg/cluster.py:77 | `[xs[i] for i in positions]` |
| Collections.Distinct | mprg/grouper.py:307 | the keys of a `Counter` filled from a list: every element once, in order of first occurrence |
| Collections.DistinctOrder | mprg/cluster.py:95-109 | two keys appear in that order exactly when their first occurrences do |
| Collections.FirstIndex | mprg/cluster.py:95-109 | the first occurrence of an element |
| Collections.SetOfSize | mprg/orchestrator.py:120 | `len(set(s))` is at most `len(s)`, and at least 1 for non-empty `s` |

## Left out

- Language-model and HTTP calls are not modelled; a response text is an input parameter. This covers:
  - `generate_plan`, `_call_openai`, `_call_voyage` and the response parsing of `_call_anthropic` in `planner.py`;
  - `_call_openai`, `_call_anthropic` and `_call_llm` in `mprg/generator.py`;
  - `_call_with_variant` and `_run_single_agent` in `mprg/runner.py`;
  - `mprg/agent_runner.py`.
- Thread-pool fan-out is not modelled; results are taken in submission order, as the code collects them.
- MongoDB persistence is not modelled (`mprg/db.py`, `mprg/store.py`, `mprg/task_store.py`). `Orchestrator` takes the stored runs as a parameter and returns the family documents and the given task update instead of writing them.
- Servers, API handlers, CLI entry points and scripts are not part of this model, and neither is `mprg/pipeline.py`.
- Floating point is not modelled:
  - cosine similarity, `difflib.SequenceMatcher.ratio`, `math.log`, the square root and the embedding model are given functions;
  - scores are `real`, so rounding is not modelled.
- `mprg/embeddings.py` and `mprg/analyzer.py` are not part of this model. `Grouper` takes the analysed records as given.
- JSON decoding (`_extract_json`) is not modelled; a decoded value is an input.
- uuid, clock and elapsed-time values are parameters: `uid` in `Grouper`, task ids, timestamps.
- `mprg/generator.py` `_attach_embeddings` is not modelled: it only forwards the Voyage call's result or error into each run.
- `_try_init_anthropic` in `mprg/generator.py` is not modelled; whether the Anthropic package is installed is the `anthropicInstalled` parameter of `Generator.NewGenerator`.
- `_run_agent` and `_validate_or_error` in `mprg/generator.py` are not modelled. Their strict retry and the numbering-repair retry only re-issue language-model calls; the validation they apply is `Generator.ValidateReasoningSummary`.
- `_serialize_task_bundle` in `mprg/generator.py` is not modelled; it only copies fields into a dict.
- `create_and_run`, `run_task` and `resume_task` in `mprg/orchestrator.py` are not modelled; they chain the runner, the store and `_cluster_and_update`.
- `run_cli` in `planner.py` is not modelled; it is terminal input and output.
- `PRESET_TASKS` in `planner.py` is data only and is not modelled.
- Character classes are ASCII only:
  - `isalnum`, `isspace`, `isdigit` and `lower` follow the ASCII tables;
  - `splitlines` uses Python's line-break set;
  - there is no Unicode case folding or normalisation.
- `Planner.PromptFields`: the `textwrap.dedent` prompt is proved line by line only for single-line fields. A field holding a line break changes the common indentation, and that case is not modelled.
- `Planner.PlanningClient.AnthropicRequest`: only the request body is modelled, not the HTTP headers or the reply.
- Planner.PlanningClient.AnthropicRequest does not model the `AssertionError` that `_call_anthropic` raises for an empty model name (planner.py:146). The constructor accepts any model string, as `__init__` does, so `Valid()` admits `Some("")`, and the model then builds a request with an empty model where Python fails.
- `Models.FromDict` requires the values to have their declared types. Python's `from_dict` copies values of any type, but it is only ever called after `validate_summary` has checked them.
- `Vectors.Tokenize` follows the regular expression `\b[a-z]+\b` as written. A run of letters that touches a digit or an underscore is not a token, because `\b` needs a word boundary on both sides.
- First-fit family formation (`TaskAnalysis`) is modelled as the code does it. There is no centroid, no merging of singletons and no unification of numeric answers.
- The test expectation of `scripts/test_clustering.py` (numeric-answer unification, a `family_sizes` metric) is not met by the code and is not modelled.
- `TaskAnalysis.NoIdsNoFamilies` records that, with two or more valid runs and no run id, no family forms and the status is "ROBUST". This is the code's behaviour as written.
- `TaskAnalysis.ComputeFamiliesAndRobustness` models an exception only as the `raises` flag. It does not tell an `AttributeError` from a `TypeError`. The flag covers only a truthy `raw_json`, or its `reasoning_summary`, that is not a dict, and fallbacks that are not all strings. `final_answer`, `plan_steps` and `assumptions` are typed as strings and string lists, so their own type errors cannot arise. The cosine is a given function, so its `TypeError` on lists that are not numeric is not modelled.
- `TaskAnalysis.FirstFitFamilies` reports the same exceptions, as `raises`, and leaves out the same ones.
