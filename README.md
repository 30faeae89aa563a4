# Marduk governance core, modelled in Dafny

This project models the governance core of Marduk's cognitive
architecture and the small pipelines around it.

The governance core runs a toroidal cycle:
- a **LightFace** exploration session collects nodes and parent/child
  branches on a topic for a limited number of days;
- a **DarkFace** synthesis session clusters the nodes of one exploration,
  by shared tags or at random, adds synthesis nodes and is finalized with a
  quality score clamped to [0, 1]; a score of at least 0.7 emits a semantic
  memory atom;
- the **cycle** manager starts a cycle, appends LightFace and DarkFace
  phases, completes the phase in progress with simulated results, and
  completes the cycle with a summary built from those results.

Around it, the project models:
- the ETL pipeline's text cleaning and tokenisation, its rule-based
  classifier (memory type, theme tags, actors) and the pilot generator's tag
  and actor extraction;
- the RAG retriever's filters by tag and by type;
- the Groundhog checkpoint diff;
- the Bolt experiment runner with its retries;
- the memory monitor's statistics.

How the model is built:
- Each stateful manager is a `class`. The directory of JSON documents it
  reads and writes is a `map` field keyed by document id. Loading a
  document is a lookup, saving it is an update, and a missing file is a
  missing key.
- The clock is a parameter `now` (seconds), and timestamp-derived ids take
  a `stamp` parameter.
- Random choices (`random.choice`, `random.sample`, set and directory
  order) are nondeterministic choices inside methods, so every contract
  holds for every choice. The numbers `complete_phase` draws are a `Draws`
  parameter, kept to the ranges the source draws from.
- Operations that only compute are functions, each with lemmas that state
  what the source promises about them.

Behaviours of the code the model keeps:
- A started phase does not check the phase in progress, so a cycle can hold
  several active phases. `Cycles.TwoActivePhases` shows this.
- A completed DarkFace phase records `nodes_created = 4`, and the comment at
  governance/cycle.py:282 calls that "3 themes + 1 overall", but the loop at
  governance/cycle.py:265-268 adds only three synthesis nodes. No overall
  node is added.
- The summary is generated before the cycle's completion time is set, so
  the end date it reports is empty.
- `end_exploration` completes a session without the expiry check, and
  `start_synthesis` ignores the exploration's status.
- `finalize_synthesis` tests the score as given against 0.7, not the
  clamped score it stores. `DarkFace.ClampKeepsThreshold` shows that both
  tests agree.

## Model

| member | source | states |
|---|---|---|
| LightFace.EffectiveStatus | governance/lightface.py:92-95 | a session reads as active exactly when it is stored active and `now` is not past its end time |
| LightFace.Expire | governance/lightface.py:192-200 | the saved-back session has the effective status and unchanged nodes, branches and start time; a session needing no flip is returned unchanged |
| LightFace.Mirror | governance/lightface.py:117-123 | the branches mirror the parent links: never more branches than nodes |
| LightFace.MirrorCount | governance/lightface.py:117-123 | there is exactly one branch per node with a truthy parent id |
| LightFace.IndexedIdsAreDistinct | governance/lightface.py:101 | node ids that end in their own list position are pairwise distinct |
| LightFace.WithNodeWellFormed | governance/lightface.py:101-126 | adding a node keeps the session well formed (ids indexed, branches mirroring parents) and adds a branch exactly when the parent id is truthy |
| LightFace.NewerFirstOrders | governance/lightface.py:210 | newest-first by start time is a total, transitive order, so the sort is well defined |
| LightFace.Refreshed | governance/lightface.py:184-200 | the listing rewrites only `explore_` documents, and those to their expired form |
| LightFace.Refresh | governance/lightface.py:180-206 | reading documents during the listing never adds or drops a document |
| LightFace.RefreshOutside | governance/lightface.py:180-206 | a document the listing has not read is unchanged |
| LightFace.RefreshInside | governance/lightface.py:180-206 | each document read is refreshed from its own stored value |
| LightFace.RefreshedValid | governance/lightface.py:192-200 | the expiry flips of a listing keep every stored session under its own id and well formed |
| LightFace.LightFaceExploration.constructor | governance/lightface.py:16-24 | the manager starts over the given store of session documents |
| LightFace.LightFaceExploration.StartExploration | governance/lightface.py:26-67 | a new active session with no nodes, ending `duration` days after `now`, is stored under `explore_<stamp>`; the store stays valid |
| LightFace.LightFaceExploration.AddExplorationNode | governance/lightface.py:69-137 | unknown id: not-found error and nothing changes; expired or completed session: not-active error and nothing changes; otherwise the node `node_<stamp>_<n>` is appended and mirrored as a branch when it has a parent |
| LightFace.LightFaceExploration.EndExploration | governance/lightface.py:139-169 | unknown id is an error; otherwise the session becomes completed, whatever its end time, with nodes and branches kept |
| LightFace.LightFaceExploration.LoadExpired | governance/lightface.py:188-200 | a listed document is loaded and saved back in its expired form |
| LightFace.LightFaceExploration.ReadListed | governance/lightface.py:180-206 | the listing loop leaves every read document refreshed and collects exactly the sessions passing the filter |
| LightFace.LightFaceExploration.ReadOne | governance/lightface.py:183-206 | one round of the listing loop refreshes one more document and extends the collected list accordingly |
| LightFace.LightFaceExploration.ListExplorations | governance/lightface.py:171-212 | the store keeps its keys and every document is refreshed; the result is the filtered sessions sorted newest first; the store stays valid |
| LightFace.ListingIsSortedSelection | governance/lightface.py:184-210 | a listing is sorted newest first, contains only stored session files with the requested status, and misses none of them |
| LightFace.EndIsIdempotent | governance/lightface.py:158-159 | ending a session twice equals ending it once at the later time, and leaves the nodes and branches alone |
| DarkFace.TagsOf | governance/darkface.py:327-330 | `all_tags` holds exactly the tags of some node |
| DarkFace.MatchIndex | governance/darkface.py:359-370 | the first seed tag among a node's tags, or -1 exactly when none is present |
| DarkFace.FirstMatch | governance/darkface.py:352-377 | a node joins a cluster in range whenever there are clusters |
| DarkFace.Group | governance/darkface.py:352-377 | a first-pass cluster holds exactly the nodes whose first match is that cluster |
| DarkFace.GroupStep | governance/darkface.py:352-377 | one more node extends exactly the group of its first match |
| DarkFace.GroupsPartition | governance/darkface.py:352-377 | the first pass puts every node in exactly one cluster: the groups together are a permutation of the nodes |
| DarkFace.GroupsSnoc | governance/darkface.py:352-377 | appending a node appends it to its own group and leaves the other groups unchanged |
| DarkFace.ClusterByTags | governance/darkface.py:321-389 | fails exactly when k < 0, when k = 0 with nodes, or when there are clusters to seed but no tags; otherwise each cluster is its first-pass group, or a single filler node when that group is empty |
| DarkFace.CollectTags | governance/darkface.py:327-330 | the tag-gathering loop yields `TagsOf(nodes)` |
| DarkFace.ChooseSeedTags | governance/darkface.py:333-339 | k seed tags from `all_tags`, distinct when there are enough of them; otherwise every tag comes first and then repeats; fails only when there are no tags to draw |
| DarkFace.BestCluster | governance/darkface.py:359-370 | the inner loop picks the first cluster whose seed matches, or -1 when there are no clusters |
| DarkFace.AssignByTags | governance/darkface.py:342-377 | one cluster per seed tag, holding exactly its group; fails only when there are nodes and no clusters |
| DarkFace.FillEmpty | governance/darkface.py:380-387 | each cluster records its size, and an empty cluster receives one randomly chosen node |
| DarkFace.Remaining | governance/darkface.py:415 | the nodes left over are exactly the pool nodes that are not seeds |
| DarkFace.ClusterByContent | governance/darkface.py:391-425 | fails exactly when k < 0, when k = 0 with nodes, or when k > 0 without nodes; otherwise each cluster is a seed node followed by its share of the rest, and the shares partition the remaining nodes |
| DarkFace.ChooseSeedNodes | governance/darkface.py:397-403 | k seeds drawn from the nodes, without replacement when there are enough; otherwise the node list padded by repetition; fails only on no nodes |
| DarkFace.AssignRandomly | governance/darkface.py:405-423 | clusters start at their seed, receive remaining nodes as a permutation of them, and record their size; fails only when nodes remain and there are no clusters |
| DarkFace.Distribute | governance/darkface.py:416-419 | every remaining node is added to exactly one cluster |
| DarkFace.Scatter | governance/darkface.py:416-419 | the k lists drawn into together are a permutation of the remaining nodes |
| DarkFace.Empties | governance/darkface.py:405-412 | k empty lists, which flatten to nothing |
| DarkFace.ScatterStep | governance/darkface.py:416-419 | adding the next node to any list keeps the lists a permutation of the nodes seen so far |
| DarkFace.SeedClusters | governance/darkface.py:405-412 | one cluster per seed node: the seed, then the nodes it received |
| DarkFace.RecordSizes | governance/darkface.py:422-423 | each cluster's `node_count` is the length of its node list, and nothing else changes |
| DarkFace.Clamp | governance/darkface.py:211 | the stored score lies in [0, 1]; a score already in [0, 1] is kept, a lower one becomes 0 and a higher one becomes 1 |
| DarkFace.ClampKeepsThreshold | governance/darkface.py:211-225 | clamping never moves a score across the 0.7 atom threshold |
| DarkFace.AtomFor | governance/darkface.py:482-512 | the atom is semantic, comes from the synthesis session, links `derives-from` to its exploration, and holds the summary or "Synthesis results" (the fallback is never reached from `finalize_synthesis`, which sets the summary first) |
| DarkFace.NodeIdsDistinct | governance/darkface.py:158 | the synthesis node ids of a well-formed session are pairwise distinct |
| DarkFace.ListingIsSortedSelection | governance/darkface.py:229-259 | the synthesis listing is sorted newest first and holds exactly the synthesis files with the requested status |
| DarkFace.DarkFaceSynthesis.constructor | governance/darkface.py:16-24 | the manager starts over the given synthesis and memory-atom stores |
| DarkFace.DarkFaceSynthesis.StartSynthesis | governance/darkface.py:26-75 | an unknown exploration is an error and nothing changes; otherwise an active synthesis with no clusters or nodes is stored under `synth_<stamp>` |
| DarkFace.DarkFaceSynthesis.ClusterNodes | governance/darkface.py:77-131 | the errors are an unknown session, an unknown exploration, an exploration without nodes, an unknown method, and a failed clustering; on success the session's clusters are replaced by a tag or content clustering of the exploration's nodes, and only that session changes |
| DarkFace.DarkFaceSynthesis.AddSynthesisNode | governance/darkface.py:133-185 | an unknown session is an error; otherwise node `synth_node_<stamp>_<n>` is appended and node ids stay distinct |
| DarkFace.DarkFaceSynthesis.FinalizeSynthesis | governance/darkface.py:187-227 | an unknown session is an error; otherwise the session is completed with its summary and the clamped score, and an atom is written exactly when the score as given is at least 0.7; that atom's content is the given summary |
| DarkFace.DarkFaceSynthesis.ListSyntheses | governance/darkface.py:229-259 | the result is the synthesis documents with the requested status, sorted newest first |
| Cycles.Load | governance/cycle.py:103-113 | loading fails with not-found exactly for a missing cycle and with not-active exactly for an inactive one; otherwise it returns the stored cycle |
| Cycles.WithPhase | governance/cycle.py:124-135 | appending a phase keeps the earlier phases as a prefix and puts the new phase last |
| Cycles.Closed | governance/cycle.py:242-284 | a completed phase keeps its kind and exploration, gains a completion time, and carries results in the drawn ranges |
| Cycles.WithLastClosed | governance/cycle.py:242-288 | only the last phase is replaced |
| Cycles.BeganOk | governance/cycle.py:70-80 | a started cycle is well formed |
| Cycles.WithPhaseOk | governance/cycle.py:124-135 | appending an active phase of the stage's kind keeps a cycle well formed |
| Cycles.WithLastClosedOk | governance/cycle.py:242-288 | completing the last phase with in-range draws keeps a cycle well formed |
| Cycles.FinishedOk | governance/cycle.py:322-337 | completing a cycle outside a phase keeps it well formed |
| Cycles.StartAddsActive | governance/cycle.py:93-209 | starting a phase adds one active phase, whatever phase is in progress |
| Cycles.TwoActivePhases | governance/cycle.py:93-146 | two LightFace starts in a row give a well-formed cycle with two active phases; the starts do not check the current phase |
| Cycles.Lightface | governance/cycle.py:420 | the LightFace phases are exactly the phases of that kind |
| Cycles.Darkface | governance/cycle.py:421 | the DarkFace phases are exactly the phases of that kind |
| Cycles.Topics | governance/cycle.py:454-457 | there is at most one topic per phase |
| Cycles.QualityBand | governance/cycle.py:492-501 | the band is excellent at 0.9 and above, very high in [0.8, 0.9), high in [0.7, 0.8), good in [0.6, 0.7) and moderate below 0.6, each in both directions |
| Cycles.BandMonotone | governance/cycle.py:492-501 | a higher score never gets a lower band |
| Cycles.SummaryBounds | governance/cycle.py:418-518 | in a well-formed cycle the exploration totals lie between 10 and 30 nodes and between 5 and 20 branches per completed exploration, and each completed synthesis adds 3 clusters and 4 nodes |
| Cycles.SummaryStats | governance/cycle.py:454-489 | the accumulation loops compute the summary's statistics |
| Cycles.ExplorationSums | governance/cycle.py:454-474 | the loop over LightFace phases yields their topics and their node and branch totals |
| Cycles.SynthesisSums | governance/cycle.py:476-486 | the loop over DarkFace phases yields their cluster, node and score totals |
| Cycles.WithResultsAtMost | governance/cycle.py:470-486 | no more phases carry results than there are phases |
| Cycles.ExplorationTotals | governance/cycle.py:250-255 | each LightFace phase with results adds 10 to 30 nodes and 5 to 20 branches |
| Cycles.SynthesisTotals | governance/cycle.py:272-284 | each DarkFace phase with results adds exactly 3 clusters, 4 nodes and a score in [0.7, 0.95] |
| Cycles.DarkfaceOk | governance/cycle.py:421 | the DarkFace phases of well-formed phases are well formed |
| Cycles.AverageOf | governance/cycle.py:488-489 | a total of k scores in [0.7, 0.95], divided by n ≥ k, lies in [0, 0.95], and is at least 0.7 when every phase has results |
| Cycles.AverageBounds | governance/cycle.py:479-489 | the average quality never exceeds 0.95; it is 0 without DarkFace phases and at least 0.7 once all DarkFace phases are completed |
| Cycles.ListingIsSortedSelection | governance/cycle.py:348-378 | the cycle listing is sorted newest first and holds exactly the cycle files with the requested status |
| Cycles.Themes | governance/cycle.py:265-268 | `n` theme nodes are generated |
| Cycles.WithThemes | governance/cycle.py:265-268 | after i theme nodes a synthesis holds i more nodes |
| Cycles.WithThemesStep | governance/cycle.py:265-268 | each theme node is appended with the next index |
| Cycles.ConcludedSynthesized | governance/cycle.py:262-274 | clustering, three themes and the finalization give the synthesis state that completing a DarkFace phase promises |
| Cycles.ToroidalCycle.constructor | governance/cycle.py:20-39 | the manager starts over its configuration and stores, with fresh lightface and darkface managers |
| Cycles.ToroidalCycle.StartCycle | governance/cycle.py:51-91 | an active cycle `cycle_<stamp>` with no phases, in stage init, is stored; its name is the argument, else the configured default, else "Toroidal Cycle" |
| Cycles.ToroidalCycle.ExecuteLightfacePhase | governance/cycle.py:93-146 | load errors leave everything unchanged; otherwise an exploration on the configured topic and duration is started and an active LightFace phase referring to it is appended, with stage lightface |
| Cycles.ToroidalCycle.ExecuteDarkfacePhase | governance/cycle.py:148-209 | load errors, and a cycle with no LightFace phase when no exploration is given, leave everything unchanged; otherwise a synthesis of the given exploration, or of the last LightFace phase's, is started and an active DarkFace phase is appended |
| Cycles.ToroidalCycle.CompletePhase | governance/cycle.py:211-296 | fails on a missing or inactive cycle, on no phase, on a completed phase, on a missing exploration, and when tag clustering fails, and on a loaded cycle fails exactly in those cases (`PhaseBlocked`); a LightFace phase ends its exploration and records counts in range; a DarkFace phase clusters by tag into 3, adds 3 themes and finalizes; the last phase becomes completed and the stage complete |
| Cycles.ToroidalCycle.CompleteCycle | governance/cycle.py:298-346 | load errors are reported; a cycle not in a phase is completed with no other store touched; for a cycle in a phase, the call fails exactly when `complete_phase` would (no phase, an inactive last phase, a missing exploration, a synthesis that cannot be clustered), and on success the exploration is ended, or the synthesis clustered, extended, finalized and its atom written, as by `complete_phase` (`PhaseEffects`); then the cycle is completed with the given or generated summary, stored, and every failure changes nothing |
| Cycles.ToroidalCycle.FinishCycle | governance/cycle.py:329-337 | the cycle is stored completed with its summary and completion time |
| Cycles.ToroidalCycle.ListCycles | governance/cycle.py:348-378 | the result is the cycles with the requested status, sorted newest first |
| Cycles.ToroidalCycle.CompleteSynthesis | governance/cycle.py:258-274 | the DarkFace half fails exactly when tag clustering is blocked; otherwise the synthesis reaches the concluded state and an atom is written exactly when the score is at least 0.7 |
| Cycles.ToroidalCycle.ClusterByTag | governance/cycle.py:263 | `cluster_nodes(..., "tag_similarity", 3)` fails exactly when blocked, and otherwise replaces only that synthesis's clusters with a tag clustering |
| Cycles.ToroidalCycle.ThemeAndFinalize | governance/cycle.py:265-274 | after the clustering, the three themes and the finalization leave the concluded session and the atom the threshold calls for |
| Cycles.ToroidalCycle.AddThemes | governance/cycle.py:265-268 | three theme nodes, "Synthesis theme 1" to "3", are appended |
| Classify.MatchesCount | memory/etl/classify.py:75-80 | every match of a listed word counts towards the list's score |
| Classify.MethodCountsTwice | memory/etl/classify.py:14-30 | "method" raises both the declarative and the procedural score |
| Classify.ClassifyText | memory/etl/classify.py:66-90 | fails exactly when `cleaned_content` is missing; with no match the result is declarative with confidence 0.5; otherwise it is the first type of highest score in table order, with its share of all matches, in (0, 1], as confidence |
| Classify.TypeAt | memory/etl/classify.py:75 | table positions and memory types correspond |
| Classify.ScoreAll | memory/etl/classify.py:75-80 | the scoring loop gives every type its score |
| Classify.CountMatches | memory/etl/classify.py:77-79 | the inner loop adds up the matches of one type's words |
| Classify.FirstMax | memory/etl/classify.py:86 | `max(..., key=...)` returns the first position holding a largest value |
| Classify.SumOf | memory/etl/classify.py:87 | the loop computes the sum of the scores |
| Classify.ShareBounds | memory/etl/classify.py:88 | a positive part of a whole is a share in (0, 1] |
| Classify.SumAtLeast | memory/etl/classify.py:87-88 | no score exceeds the total |
| Classify.ExtractTags | memory/etl/classify.py:33-53 | never empty; "unclassified" alone exactly when no theme occurs; otherwise exactly the occurring themes, in check order |
| Classify.TagsFrom | memory/etl/classify.py:36-53 | the same facts for any theme list that does not hold "unclassified" |
| Classify.UnclassifiedIsNoTheme | memory/etl/classify.py:39-51 | "unclassified" is not one of the themes, so it can only come from the fallback |
| Classify.Occurring | memory/etl/classify.py:39-47 | the checks keep exactly the words that occur, in order |
| Classify.ExtractActors | memory/etl/classify.py:55-64 | the actors named are a subsequence of Marduk, Echo, Dan, and contain each actor exactly when its word occurs |
| Classify.ActorNames | memory/etl/classify.py:60-62 | the three actor names are Marduk, Echo and Dan, and they are distinct |
| Classify.Mentioned | memory/etl/classify.py:60-62 | the checks keep exactly the names of the mentioned actors, in order |
| Tokenize.SkipSpaces | memory/etl/tokenize.py:20 | drops exactly the leading whitespace and stops at a visible character |
| Tokenize.Strip | memory/etl/tokenize.py:20 | the result neither starts nor ends with whitespace |
| Tokenize.StripRight | memory/etl/tokenize.py:20 | drops exactly the trailing whitespace |
| Tokenize.CleanText | memory/etl/tokenize.py:14-20 | the cleaned text neither starts nor ends with whitespace |
| Tokenize.WordAt | memory/etl/tokenize.py:34 | the longest whitespace-free prefix |
| Tokenize.CollapseNormal | memory/etl/tokenize.py:17 | after `re.sub(r'\s+', ' ', ...)` every whitespace character is a plain space and no two are adjacent; emptiness and a leading space are preserved |
| Tokenize.CollapseFixes | memory/etl/tokenize.py:17 | collapsing leaves a normal string unchanged |
| Tokenize.VisibleAppend | memory/etl/tokenize.py:17-20 | the visible characters of a concatenation are those of its parts |
| Tokenize.VisibleSpaces | memory/etl/tokenize.py:17-20 | whitespace has no visible characters |
| Tokenize.CollapseVisible | memory/etl/tokenize.py:17 | collapsing whitespace keeps the visible characters in order |
| Tokenize.StripVisible | memory/etl/tokenize.py:20 | stripping keeps the visible characters |
| Tokenize.SkipVisible | memory/etl/tokenize.py:20 | dropping leading whitespace keeps the visible characters |
| Tokenize.StripRightVisible | memory/etl/tokenize.py:20 | dropping trailing whitespace keeps the visible characters |
| Tokenize.StripNormal | memory/etl/tokenize.py:20 | stripping a normal string keeps it normal |
| Tokenize.CleanTextSingleSpaces | memory/etl/tokenize.py:14-20 | in cleaned text every whitespace character is a single plain space |
| Tokenize.CleanTextVisible | memory/etl/tokenize.py:14-20 | cleaning keeps every non-whitespace character, in order |
| Tokenize.CleanTextIdempotent | memory/etl/tokenize.py:14-20 | cleaning twice is cleaning once |
| Tokenize.WordsSkip | memory/etl/tokenize.py:34 | leading whitespace adds no word |
| Tokenize.CollapseWord | memory/etl/tokenize.py:17 | a word followed by the rest collapses word first |
| Tokenize.WordAtConcat | memory/etl/tokenize.py:34 | a word followed by whitespace or nothing is read back as that word |
| Tokenize.CollapseWords | memory/etl/tokenize.py:17-34 | collapsing whitespace does not change `split()` |
| Tokenize.WordsStripRight | memory/etl/tokenize.py:20-34 | trailing whitespace adds no word |
| Tokenize.WordsDropSpace | memory/etl/tokenize.py:34 | a whitespace character at the end adds no word |
| Tokenize.CleanTextWords | memory/etl/tokenize.py:14-34 | cleaning does not change the words |
| Tokenize.TokenizeDocument | memory/etl/tokenize.py:22-43 | fails exactly when `content` is missing; otherwise keeps the document, stores the cleaned content, and counts as many tokens as the raw content has words |
| Pilot.ContainsAt | memory/generate_pilot.py:159 | the `in` test holds exactly when the pattern occurs at some position |
| Pilot.TagOfNormal | memory/generate_pilot.py:161 | a concept's tag holds no space and no ASCII capital, and is its own tag: lower-casing and hyphenating it again changes nothing |
| Pilot.ExtractTags | memory/generate_pilot.py:155-169 | the tags of the occurring concepts, or "unclassified" when none occurs, cut to five |
| Pilot.TagsCount | memory/generate_pilot.py:164-169 | between one and five tags |
| Pilot.TagsUnclassified | memory/generate_pilot.py:158-166 | the result is "unclassified" alone exactly when no concept occurs |
| Pilot.TagsInOrder | memory/generate_pilot.py:158-169 | otherwise the tags are a prefix of the occurring concepts' tags, in concept order |
| Pilot.NoConceptIsUnclassified | memory/generate_pilot.py:50-86 | no concept's tag spells "unclassified" |
| Pilot.ConceptTags | memory/generate_pilot.py:158-162 | the loop yields the tag of every occurring concept, in order |
| Pilot.ExtractActors | memory/generate_pilot.py:171-177 | the found actors are a subsequence of the actor list, and contain each actor exactly when it occurs, ignoring case |
| Pilot.FoundActors | memory/generate_pilot.py:173-176 | the loop keeps exactly the occurring actors, in order |
| Retriever.Overlap | models/rag/retriever.py:132-134 | the overlap is at most the number of requested tags, and positive exactly when some requested tag is present |
| Retriever.RelevanceBounds | models/rag/retriever.py:134-135 | an atom sharing a tag has relevance in (0, 1] |
| Retriever.NewerFirstOrders | models/rag/retriever.py:167 | descending `created_at` order is total and transitive |
| Retriever.MemoryAtomRetriever.constructor | models/rag/retriever.py:15-29 | the retriever holds the loaded atoms |
| Retriever.MemoryAtomRetriever.FilterByTags | models/rag/retriever.py:112-146 | the result is the matching copies sorted by relevance and cut to `top_k` |
| Retriever.MemoryAtomRetriever.FilterByType | models/rag/retriever.py:148-170 | only loaded atoms of the requested type, sorted newest first, exactly `min(top_k, matches)` of them for a non-negative `top_k`, each at least as new as every match cut off, and all of them when `top_k` covers the atoms |
| Retriever.TypeResultsFacts | models/rag/retriever.py:164-170 | the same facts for any list of atoms: the exact count `min(top_k, matches)` and every result at least as new as every match cut off |
| Retriever.MatchingFacts | models/rag/retriever.py:129-140 | each match is a copy of a loaded atom that shares a tag, with the tag share in (0, 1] as its relevance |
| Retriever.MatchingComplete | models/rag/retriever.py:129-140 | every atom sharing a tag is matched |
| Retriever.MoreRelevantOrders | models/rag/retriever.py:143 | descending relevance is total and transitive |
| Retriever.TagResultsFacts | models/rag/retriever.py:128-146 | only matches, most relevant first, exactly `min(top_k, matches)` of them for a non-negative `top_k`, each at least as relevant as every match cut off, and every sharing atom when `top_k` covers the atoms |
| Sorting.TopK | models/rag/retriever.py:143-146 | sorting descending and slicing to `k` gives a sorted selection drawn from the input, exactly `min(k, n)` long for a non-negative `k`, the whole sorted input once `k` reaches its length, and every element kept may stand before every element cut off |
| Retriever.MatchingLength | models/rag/retriever.py:129-140 | there are no more matches than atoms |
| Diff.JoinInjective | groundhog/diff.py:149-159 | within one directory distinct relative paths give distinct full paths |
| Diff.FilesDiffer | groundhog/diff.py:191-198 | two files differ exactly when the reads fail or the bytes differ |
| Diff.FilesDifferFacts | groundhog/diff.py:191-198 | the test is symmetric, equal readable files do not differ, and an unreadable file differs even from itself |
| Diff.ChangedKeptPartition | groundhog/diff.py:153-165 | modified and unchanged never overlap, and together they are the common paths that are files on both sides |
| Diff.MapLists | groundhog/diff.py:149-150 | joining distinct relative paths lists each full path once |
| Diff.FilterLists | groundhog/diff.py:157-165 | joining the passing paths lists each selected full path once |
| Diff.AllFiles | groundhog/diff.py:174-185 | the full path of every file under the directory, once each; nothing for a missing directory |
| Diff.SortCommon | groundhog/diff.py:157-165 | the loop over the common paths lists the modified and the unchanged new files |
| Diff.DiffDirectory | groundhog/diff.py:114-172 | a missing old side makes every new file added; a missing new side makes every old file removed; otherwise added, removed, modified and unchanged are the path-set differences and the two halves of the common files |
| Diff.CountsOf | groundhog/diff.py:89-108 | the statistics are the lengths of the four lists |
| Diff.CompareCheckpoints | groundhog/diff.py:26-112 | a missing old checkpoint, a missing new one, and missing metadata are errors, checked in that order; otherwise the report names both checkpoints ("unknown" for missing fields) and holds the diffs and counts of memory, model and bolt |
| Bolt.SettingsPrecedence | bolt/run.py:105-112 | a step's timeout and retries win over the system configuration, which wins over the defaults 3600, 3 and 5 |
| Bolt.FirstSuccessFacts | bolt/run.py:117-127 | the attempt found is the earliest in range that does not raise |
| Bolt.RunFromShape | bolt/run.py:91-146 | at most one entry per step; every entry but the last continues the run |
| Bolt.RunFromEntries | bolt/run.py:91-146 | entry k is the entry of step i + k |
| Bolt.RunFromStops | bolt/run.py:91-146 | the run stops only after a failed step that does not continue on error, and otherwise covers every step |
| Bolt.RunFromCons | bolt/run.py:91-146 | one step of the run, with the entries before it |
| Bolt.StepEntryFacts | bolt/run.py:95-141 | a step without `op` records a missing-op error; a failed step records its index and the last message or "Unknown error" |
| Bolt.Attempt | bolt/run.py:115-127 | at most `max_retries + 1` attempts, stopping at the first that does not raise; when all raise, the last message is kept |
| Bolt.RunStep | bolt/run.py:95-141 | the loop body adds the entry of its step |
| Bolt.AllCompletedSnoc | bolt/run.py:89-141 | the run succeeds exactly when no entry records an error |
| Bolt.UnknownOperationCompletes | bolt/run.py:129-141 | a step naming an unknown operation (the error record of bolt/run.py:231-236), once an attempt does not raise, is completed with the error `Unknown operation: <op>`, does not stop the run, and leaves the run's success to the later steps |
| Bolt.BoltExperiment.constructor | bolt/run.py:32-46 | the experiment holds its configuration, with no results and no times yet |
| Bolt.BoltExperiment.Run | bolt/run.py:74-168 | without steps the run fails and records nothing; otherwise it records the entries of the run, the name or "Unnamed", the times and duration, and succeeds exactly when every entry completed |
| Monitor.Visited | memory/monitoring/monitor.py:55-86 | the counted items are a prefix that stops at, and includes, the first non-object |
| Monitor.FirstNonObject | memory/monitoring/monitor.py:55-86 | the position of the first non-object, or the length |
| Monitor.TallyOntoCount | memory/monitoring/monitor.py:60-68 | a key's count grows by its number of occurrences, and keys appear only when seen |
| Monitor.TallyOntoAppend | memory/monitoring/monitor.py:63-68 | tallying two lists in turn equals tallying their concatenation |
| Monitor.TallyFacts | memory/monitoring/monitor.py:63-68 | a tally from empty holds exactly the seen keys, each with its multiplicity |
| Monitor.TotalRemove | memory/monitoring/monitor.py:94 | the sum of the counts splits off any key |
| Monitor.TotalBump | memory/monitoring/monitor.py:60 | bumping one key adds one to the sum |
| Monitor.TotalTally | memory/monitoring/monitor.py:63-68 | tallying adds the number of keys to the sum |
| Monitor.CountAllSnoc | memory/monitoring/monitor.py:55-83 | counting one more item is one loop round |
| Monitor.CountAllAppend | memory/monitoring/monitor.py:39-83 | counting two lists in turn is counting their concatenation |
| Monitor.CountAllCloses | memory/monitoring/monitor.py:55-83 | a pass counts every item once and sums the links and timestamps of the atoms |
| Monitor.CountAllTallies | memory/monitoring/monitor.py:59-68 | the type, tag and actor counters are the tallies of the atoms' types, tags and actors |
| Monitor.ByTypeTotal | memory/monitoring/monitor.py:59-60 | the type counts add up to the number of atoms |
| Monitor.TypesLength | memory/monitoring/monitor.py:59 | one type per atom |
| Monitor.AtomsAll | memory/monitoring/monitor.py:53-56 | no more atoms than items, and as many when all items are objects |
| Monitor.SizesKeys | memory/monitoring/monitor.py:41-46 | the size table holds exactly the paths of the listed `.json` files |
| Monitor.Min | memory/monitoring/monitor.py:99 | the oldest timestamp is one of them and no larger than any |
| Monitor.Max | memory/monitoring/monitor.py:100 | the newest timestamp is one of them and no smaller than any |
| Monitor.StatsFacts | memory/monitoring/monitor.py:24-103 | the total counts every visited item; tags, actors and types are counted per occurrence; type counts add up to the atoms; the average is links over the total, or 0; the kind counts are numbers of distinct keys; file sizes cover exactly the `.json` files |
| Monitor.TallyInto | memory/monitoring/monitor.py:63-68 | the tag or actor loop computes the tally |
| Monitor.CountItem | memory/monitoring/monitor.py:55-83 | the loop body for one item |
| Monitor.CountFile | memory/monitoring/monitor.py:48-86 | a file counts its items up to the first that raises |
| Monitor.SumValues | memory/monitoring/monitor.py:94 | `sum(file_sizes.values())` is the sum of the counts, in any order |
| Monitor.ScanMemoryStore | memory/monitoring/monitor.py:24-103 | the scan computes the statistics of the walk |

## Left out

- Reading and writing JSON, TOML and YAML files, printing and logging, command-line parsing, `main` and the `simulate_*` drivers are I/O. They are replaced by map-valued stores and parameters.
- ISO-8601 timestamps become integer seconds `now`. The date of the memory atom is a `date` parameter. Timestamp-derived ids take a `stamp` parameter.
- The text generators (`_generate_related_topics`, `_generate_content_for_topic`, `_generate_tags_for_topic`, `_generate_synthesis_content`, `_generate_overall_synthesis`) produce placeholder prose. A synthesis's cluster content and summary are parameters or fixed strings.
- The template filling of the cycle summary is left out: the summary is modelled as its statistics (`Stats`), and the narrative text is not rendered.
- `generate_content`, `generate_embedding` and `generate_memory_atom` in the pilot generator are random text and vector generators. Only tag and actor extraction is modelled.
- The retriever's `search` and `_compute_query_embedding` return random similarities. `_load_atoms` is file I/O, and the loaded atoms are given to the constructor.
- `process_batch` in the ETL scripts is file I/O around the modelled functions.
- `generate_report` in the checkpoint diff and `generate_report`/`generate_charts` in the monitor are rendering. `_save_results` in Bolt is I/O.
- The content hash of `tokenize_document` (SHA-256) and its `timestamp` field are not modelled.
- Classify.ClassifyText, Classify.ExtractTags, Classify.ExtractActors: regular-expression whole-word matching is a parameter `count` rather than an implementation of `\b` and `re.I`.
- Pilot.Lower: only ASCII letters are lower-cased; Unicode case mapping is not modelled.
- Tokenize.CleanText: the quote normalisation replaces the ASCII double quote with itself, so it does nothing and is not modelled. Unicode whitespace beyond the characters listed in `IsSpace` is not modelled.
- Diff.DiffDirectory: `os.path.join` and `os.path.relpath` are modelled as concatenation with "/" over relative paths. Symbolic links and files that vanish mid-walk are not modelled.
- Monitor.ScanMemoryStore: a timestamp that fails to parse is dropped. Parsing is given by the `stamp` field of an atom. Timestamps are integers rather than floats.
- Bolt.UnknownOperationCompletes: the operation's parameters and its simulated work (`time.sleep`) are not modelled. Whether an attempt raises is a parameter `raises`.
- Bolt.BoltExperiment.Run: a step's `timeout` is computed but, as in the source, never enforced. Times are integer clock readings.
- Cycles.ToroidalCycle.CompletePhase: `random.randint` and `random.uniform` draws are a `Draws` parameter, required to lie in the source's ranges.
- LightFace.LightFaceExploration.ListExplorations: a document that fails to load, which the source reports and skips, is not modelled; every stored document is readable.
- DarkFace.DarkFaceSynthesis.ListSyntheses: likewise, a document that fails to load (skipped at governance/darkface.py:244-253) is not modelled; every stored document is readable.
- Cycles.ToroidalCycle.ListCycles: likewise, a document that fails to load (skipped at governance/cycle.py:364-373) is not modelled; every stored document is readable.
- Concurrency and last-writer-wins over shared documents are not modelled. Every operation is one atomic read-modify-write.
