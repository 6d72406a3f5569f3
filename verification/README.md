# CoLearni knowledge-graph engine: verified model

A Dafny model of the knowledge graph of CoLearni and of the bounded protocols around it: chunking documents, packing
chunks into extraction windows, normalizing what the model extracts, resolving it into canonical concepts and edges,
gardening the graph, exploring it, pruning it, streaming chat answers over it, and limiting and looping model calls.
Whatever comes from outside (the language model, similarity searches, failing statements, thread schedules) is an
arbitrary parameter, so every result holds for all of it.

`dafny verify dfyconfig.toml` checks the project.

## Structure

| module | what it models |
|---|---|
| `GraphTables` | the tables of one workspace with the constraints of their schema |
| `Components`, `MergeForest` | clusters of the candidate graph; merges as a forest |
| `EdgeTable`, `GardenerMerge` | edge upserts and repointing; merging two concepts |
| `GardenerDecisions`, `GardenerClusters`, `GardenerRun`, `Gardener` | asking about clusters, applying decisions, budgets, the whole run |
| `GardenerBatches`, `GardenerMeaning`, `GardenerRunMeaning`, `MergeRows` | the same, said of clusters, replies, rules and rows alone |
| `GardenerExamples` | runs that lose a concept, a relation or their call budget, or are refused |
| `Pruner` | orphan pruning and document deletion |
| `Explore`, `ExploreMeaning` | bounded subgraphs and ancestor chains; both said of rows alone |
| `Packing`, `GraphWindows`, `Chunker`, `ChunkMeaning` | greedy packing, extraction windows, text chunks, and these said of the text alone |
| `Grouping`, `Extraction`, `ExtractionMeaning` | grouping by key in one pass; normalizing a payload, and what of it is kept |
| `Disambiguation`, `BatchingMeaning` | sub-batched questions to the model; what windows hold and queries are answered |
| `ResolverDecisions`, `ResolverApply`, `Resolver`, `GraphBuild` | deciding, writing, resolving a window, building a document's graph |
| `ResolverOutcome`, `ResolverMeaning`, `GraphBuildMeaning` | the same, said of answers, mentions, results and rows alone |
| `ResolverRefusals`, `DocumentRefusals` | which windows and which documents some model can get refused |
| `ChatMessages`, `ChatStream`, `StreamMeaning` | message rows and the streamed response; when it ends well and what it says |
| `RateLimiter`, `AgentLoop`, `AgentStory` | the concurrency gate; the tool loop and what its messages tell |
| `Tokenization`, `TokenEstimate` | cutting text to a token budget; the estimate without a tokenizer |
| `Text`, `TextMeaning`, `Ordering`, `Sequences`, `Numbers`, `Wrappers` | what the others share |

Code that changes state step by step is a method over a class (`GraphTables.Session`, `GardenerBudgets`,
`ResolverBudgets`, `ChatDb`, `Stream`, `Limiter`, `ToolRegistry`), proved equal to a function on values; the lemmas are
about those functions. Where a function only says how something is computed, a lemma of a module named `...Meaning`,
`...Story`, `...Outcome` or `MergeRows` says what comes out, without it. A raised exception is a result value.

## Where the code and its promises part

- Word chunking continues from the nominal end of a window and not from its break, so words can be in no chunk. It keeps
  all words exactly when `overlap >= ceil(n / 2) - 1`; the ingestion defaults do not meet that.
- Windows packed by characters can exceed their size by the separators between chunks, for every size above one; windows
  packed by words cannot.
- A gardener run asks first and registers after. It aborts when backfilled tiers plus `ceil(selected / batch size)`
  exceed the call cap, although selecting looked at the budget.
- Quizzes, topic states, practice runs, flashcards, practice history and chat sessions refer to concepts, and the prune
  deletes none of them. It is refused when one refers to an active concept without provenance. So a document cannot be
  deleted with the prune, which is the default, while a studied concept has no other support; and a document deleted
  without it can leave a concept that refuses every later gardener run with seeds, unless the run merges it away. What
  is said below and in the table of the tables after a closing prune holds when it goes through.
- A gardener merge moves no provenance. The prune at the end of the same run removes the merge target unless it has
  provenance of its own, so a run can lose a supported concept, and with it a whole cluster.
- Every edge row a gardener run inserts, a link or an edge carried over from a merged concept, lacks provenance, and the
  same prune removes it. `docs/GRAPH.md` promises that a merge repoints edges. What is left is exactly the old rows with
  provenance whose ends were not merged away and are supported.
- A gardener proposal to create a new concept is dropped with its proposed tier, although the tier correction says that
  it applies to all decision types; a merge that is not allowed skips its tier as well.
- `pruned_edges` leaves out supported edges that go with a pruned concept.
- The bounded subgraph is connected through its root exactly when the root is active.
- A link-only decision of the resolver whose mention resolves to the linked concept violates the edge table's check and
  aborts the build. Some model does this to a window exactly when a mention that waits for it, and that a call reaches,
  is offered the active concept of its own name. A link that is written has no provenance.
- Creating a concept whose exact name a retired row holds reuses that row as it is: the alias then points at an inactive
  concept, it counts as created, and its tier becomes the more general of the two.
- A stream that dies of a refused statement leaves its message generating, since the handler does not roll back first. A
  stream whose closing statements fail still ends in `final`; when only its title or summary step broke off, a commit of
  the request saves the message. A failed message keeps no part of an unfinished reply. A placeholder whose creation
  breaks down without a refused statement makes the user's message be stored twice.
- `persist_turn` is all or nothing only while its caller does not commit: after a title or summary step that broke off,
  a commit of the request stores the turn although the stream ended in an error.
- `mark_message_superseded` names a column that the migrations do not define, so regenerating always fails.
- With a counter that is monotone on prefixes and subadditive a cut text exceeds its token budget in one case only: the
  suffix alone does. The word estimate used without a tokenizer is not subadditive; it keeps that promise exactly for
  suffixes that do not begin with a blank, such as the default one, or whose words come in tens.

## Assumptions

- Tables hold what the migrations under `adapters/db/migrations` declare; one workspace, one writer at a time.
- Research candidates keep no document: no statement writes their `document_id`.
- A refused statement spoils its transaction: until it ends every statement is refused, and its commit is a rollback.
- Whether the session of a request is committed after its stream depends on the release of FastAPI
  (`adapters/db/dependencies.py:10-25`); the results hold for both.
- Extraction returns one payload per window, which may fail its validation.
- Candidate queries return active concepts, as their `WHERE` clauses say. Similarities, relevance and collation orders
  are arbitrary; lexical and vector rules pick some candidate or none.
- Case folding and `lower()` are arbitrary functions; whitespace is exactly what `str.isspace` accepts.
- Extraction payloads are validated records: their optional texts are stripped and weights are not negative. Bounds on
  descriptions are at least 1, batch sizes at least 1, and call caps not negative, as the settings require.
- Weights, confidences and delays are exact reals; the proportional estimate of the token cut is an exact quotient.

## Model

| member | source | states |
|---|---|---|
| `Components.BuildAdjacency` | domain/graph/gardener.py:266-289 | The loop over seeds and candidates yields a symmetric graph without self-links whose nodes are exactly the seeds and their candidates and whose links are exactly seed-candidate pairs |
| `Components.Search` | domain/graph/gardener.py:678-688 | The stack loop terminates although nodes may be stacked several times, and its component is exactly what is reachable from the root and not visited earlier |
| `Components.NewlyReachedIsClass` | domain/graph/gardener.py:675-689 | On a symmetric graph one search from an unvisited root yields the whole connectivity class of the root |
| `Components.ConnectedComponents` | domain/graph/gardener.py:672-691 | On a symmetric graph the result is the list of connectivity classes: non-empty, covering the keys, two nodes together exactly when a path joins them, strictly ordered by size and least member |
| `Components.BeforeIsTotal` | domain/graph/gardener.py:690 | On disjoint non-empty components the sort key (size, least member) never ties |
| `Components.ClusteringUnique` | domain/graph/gardener.py:672-691 | Only one list meets that description, so the order of the search does not show in the result |
| `EdgeTable.UpsertMeaning` | adapters/db/graph/edges.py:148-260 | An edge upsert keeps keys unique, weights non-negative and ids fresh, and changes the row of one key only |
| `EdgeTable.UpsertAllWeights` | adapters/db/graph/edges.py:194-246 | Upserting any list of edges in any order leaves on every key min(cap, old weight plus the sum), and a row exists exactly for old and mentioned keys |
| `MergeRows.UpsertedRow` | adapters/db/graph/edges.py:148-260 | The row after an upsert has the longer description, the old one on a tie, exactly the non-blank normal forms of both keyword lists, each once, and the sum of the weights up to the cap |
| `EdgeTable.RepointEdges` | adapters/db/graph/edges.py:68-145 | Repointing deletes the edges of the merged concept and upserts them on the target in id order, dropping those that became self-links |
| `EdgeTable.RepointRows` | adapters/db/graph/edges.py:68-145 | After repointing no edge touches the merged concept, edges elsewhere keep id and key, and every other row has a fresh id and the key of a moved edge |
| `EdgeTable.RepointWeights` | adapters/db/graph/edges.py:68-145 | Weight is conserved up to the cap on every key away from the merged concept |
| `MergeRows.RepointedKey` | adapters/db/graph/edges.py:68-145 | A key away from the merged concept has a row afterwards exactly when it had one, or the same key with the merged concept in place of the target had one |
| `MergeRows.RepointedWeight` | adapters/db/graph/edges.py:68-145 | It then weighs the sum of the two up to the cap; a key nothing moves to keeps its weight |
| `GardenerMerge.EnsureAliases` | adapters/db/graph/merge_map.py:92-118 | One pass with a set of seen names points every non-blank normalized alias at the concept and leaves the rest of the map alone |
| `GardenerMerge.ExecuteMerge` | domain/graph/gardener.py:800-880 | A merge happens exactly when two different active concepts are named; the sequence of statements produces the specified tables, otherwise nothing changes |
| `GardenerMerge.MergeMeaning` | domain/graph/gardener.py:827-880 | A merge keeps every schema constraint, retires exactly its source, and leaves neither an edge nor an alias on it |
| `GardenerMerge.MergeKeepsAliases` | domain/graph/gardener.py:836-857 | A merge preserves an alias map that points only at active concepts, and keeps edges off all retired concepts |
| `MergeRows.MergedTables` | domain/graph/gardener.py:800-880 | A merge logs its pair, retires and cleans the source, gives the target the more general known tier of the two, and points the aliases of the source and what led to it at the target; nothing else changes but edges |
| `MergeRows.MergedRelations` | domain/graph/gardener.py:823-831 | After a merge the relations are those away from the source and those of the source with the target in its place, self-loops left out |
| `GardenerClusters.MergeKeepsRows` | adapters/db/graph/edges.py:68-145 | A merge keeps every edge row, id and key, that does not touch the merged concept |
| `MergeForest.ForestAcyclic` | domain/graph/gardener.py:397-399 | When no merge names a concept retired earlier, a merge target can be a source only later: the merges form an acyclic forest |
| `MergeForest.FollowMeaning` | domain/graph/gardener.py:438-469 | Following merges from any concept ends, inside any set the merges stay in, at a concept that was never a source |
| `MergeForest.FollowLeavesSources` | domain/graph/gardener.py:438-469 | Wherever one starts, following an acyclic forest of merges ends outside its sources |
| `MergeForest.FollowAppend` | domain/graph/gardener.py:457-469 | A later merge redirects everything that had been merged into its source, so chains A to B to C resolve to C |
| `GardenerDecisions.BuildItems` | domain/graph/gardener.py:707-745 | The batch asks about every cluster member that has others to be compared with, in ascending order, with at most the bounded shortlist of them |
| `GardenerDecisions.ItemsStayInside` | domain/graph/gardener.py:711-745 | Every item asks about a member of a cluster and offers it only other members of that cluster |
| `GardenerDecisions.BatchClusterDecisions` | domain/graph/gardener.py:750-796 | Replies are zipped to items and collected per cluster; a call that raised yields no decision at all |
| `GardenerDecisions.DecisionsStayInside` | domain/graph/gardener.py:758-781 | Whatever is replied, an accepted merge or link names another member of the same cluster that was offered |
| `GardenerDecisions.CreateNewIsDropped` | domain/graph/gardener.py:758-781 | From any reply exactly the kept operations become decisions, in order, and none of them creates: a proposal to create a concept is dropped together with the tier it proposes; a reply with nothing kept becomes one empty decision |
| `GardenerBatches.ItemsMeaning` | domain/graph/gardener.py:707-747 | The model is asked about exactly the members that have somebody to be compared with, cluster by cluster and in ascending order, each with all its cluster mates or the most relevant ones up to the limit |
| `GardenerBatches.EntriesMeaning` | domain/graph/gardener.py:761-786 | From a reply exactly the valid operations are taken, in order, that merge into another offered member or link to an offered one; without any there is one empty decision |
| `GardenerBatches.CollectedMeaning` | domain/graph/gardener.py:758-786 | What is taken from a reply goes to the end of the list of its item's cluster and to no other |
| `GardenerBatches.BatchMeaning` | domain/graph/gardener.py:749-797 | A failed call leaves every list empty; otherwise replies and items are paired in order as far as both go |
| `GardenerClusters.TierIsWritten` | domain/graph/gardener.py:470-488 | A proposed tier is written exactly when its operation reaches the floor, the loop body does not leave early on a merge that is not allowed, the concept was not merged away, and the loaded tier differs |
| `GardenerClusters.Decide` | domain/graph/gardener.py:397-488 | The loop body writes what one decision is specified to do; what that is in terms of rules and rows say the next rows |
| `GardenerMeaning.DecisionMeaning` | domain/graph/gardener.py:397-459 | A decision below the floor, or on a member merged away, changes nothing. Otherwise the merges grow by exactly its merge if and only if the member is an unmastered seed, the target was not merged away and both are active, and by nothing else; the links grow by the key from the member to the target under the given relation or related_to if and only if the target was not merged away |
| `GardenerMeaning.DecisionWrites` | domain/graph/gardener.py:404-459 | Exactly the merged member is retired; without a merge alias map and log stay, and the keys with a row are the old ones and that of the link |
| `GardenerMeaning.DecisionTables` | domain/graph/gardener.py:404-459 | A decision that relates upserts one edge of weight one, described by the names around the relation; one that merges executes exactly that merge |
| `GardenerMeaning.TierMeaning` | domain/graph/gardener.py:461-484 | The proposed tier is written exactly when the decision counts, does not merge its member, is no merge the rules exclude, and proposes another tier than was loaded; the counter counts that |
| `GardenerMeaning.DecisionsMeaning` | domain/graph/gardener.py:394-484 | In a list of decisions each one merges or links exactly under those conditions in the state the earlier ones leave, and what it adds stays |
| `GardenerClusters.ProcessCluster` | domain/graph/gardener.py:395-488 | The decision loop over one cluster is the fold of single decisions |
| `GardenerClusters.DecisionKeepsSafe` | domain/graph/gardener.py:397-488 | Any decision at any point keeps the safety invariant: forest of merges of unmastered seeds inside one cluster, exactly their sources retired, nothing left on them, aliases active |
| `GardenerClusters.DecisionsKeepSafe` | domain/graph/gardener.py:397-488 | Any sequence of decisions on a cluster keeps that invariant and retires only members of the cluster |
| `GardenerClusters.DecisionsKeepFollow` | domain/graph/gardener.py:397-488 | Through any sequence of decisions exactly those aliases are mapped that were mapped before or that a merged concept lists, each to where the merges lead from the last merged concept listing it, else from its old target |
| `GardenerRun.GardenerBudgets.RegisterCluster` | domain/graph/gardener.py:105-108 | A cluster is counted exactly when the cluster budget has room; otherwise the error leaves the counter alone |
| `GardenerRun.GardenerBudgets.RegisterLlmCall` | domain/graph/gardener.py:110-113 | A call is counted exactly when the call budget has room; otherwise the error leaves the counter alone |
| `GardenerRun.BackfillNullTiers` | domain/graph/gardener.py:549-598 | Tiers are filled for the first untiered concepts the call budget allows, one registered call each, with granular for an unusable reply |
| `GardenerRun.BackfillKeeps` | domain/graph/gardener.py:581-588 | Backfilling keeps the schema constraints, the edges, the aliases and which concepts are active |
| `GardenerRun.SelectClusters` | domain/graph/gardener.py:324-365 | The clusters taken are the first eligible ones within the cluster budget, none when no call is left; lone seeds are stabilized; each stop flag says which budget cut the list |
| `GardenerRun.BatchCountIsCeiling` | domain/graph/gardener.py:367-370 | The number of batches is ceil(selected clusters / batch size) |
| `GardenerRun.ApplyClustersSafe` | domain/graph/gardener.py:369-490 | The whole decision phase keeps the safety invariant for every stream of replies |
| `GardenerRun.ApplyClustersFollow` | domain/graph/gardener.py:369-490 | The same of all aliases through the whole decision phase: every alias a merged concept lists points at the final canonical concept of the last one that does |
| `GardenerRun.ProcessBatches` | domain/graph/gardener.py:367-490 | Each batch is asked first and registered after; the phase finishes exactly when the calls so far plus the number of batches fit the cap, with the tables the decisions specify |
| `GardenerRunMeaning.BackfillMeaning` | domain/graph/gardener.py:549-598 | Exactly the untiered active concepts with fewer than so many smaller ones get the tier of their reply, or granular; nothing else changes |
| `GardenerRunMeaning.PendingMeaning` | domain/graph/gardener.py:324-365 | A run takes the first clusters, in their order, that have a seed and two members, as many as the cluster budget has, and none when no call is left |
| `GardenerRunMeaning.PlanMeaning` | domain/graph/gardener.py:367-375 | The decisions for a pending cluster are those its batch of consecutive clusters gets from the reply to that batch |
| `GardenerRunMeaning.StableMeaning` | domain/graph/gardener.py:388-486 | A pending cluster is skipped exactly when it has no decision at all; the seeds of the others become stable, besides the lone ones |
| `GardenerRunMeaning.CleanMeaning` | domain/graph/gardener.py:488-494 | Marking clean clears the dirty flag of exactly the stable seeds and changes nothing else |
| `GardenerRunMeaning.LoadMeaning` | domain/graph/gardener.py:262-318 | A concept counts as mastered exactly when some user has recorded progress on it; only seeds come with their tier |
| `GardenerRunMeaning.RunDecides` | domain/graph/gardener.py:388-486 | Every decision of a run that may merge or link in the state it is judged in does so, for good and in order, and in each cluster the judging starts with nobody merged away |
| `Gardener.MarkClean` | domain/graph/gardener.py:492-498 | Exactly the stabilized seeds lose their dirty flag |
| `Gardener.Consolidate` | domain/graph/gardener.py:262-526 | From non-empty seeds on, the run ends in the budget error exactly when backfilled tiers plus ceil(selected / batch size) exceed the call cap; otherwise it finishes exactly when its prune goes through, and then reports those numbers and ends pruned and valid |
| `Gardener.RunGardener` | domain/graph/gardener.py:166-546 | Limits are rejected before anything is written; without seeds only tiers are backfilled; otherwise the run finishes if and only if its calls fit and every studied concept that was active and is not merged away has provenance, with the reported counters |
| `Gardener.RunMayPrune` | domain/graph/gardener.py:511 | The closing prune of a run goes through if and only if every studied concept that was active and is not merged away has provenance |
| `Gardener.StudiedStopsRuns` | domain/graph/gardener.py:511 | A studied concept without provenance that is no seed or is mastered stops every run whose calls fit, whatever the model replies; with no such studied concept at all none is stopped |
| `Gardener.RunJob` | apps/jobs/graph_gardener.py:45-61 | The job around a run leaves the tables as they were unless the run finishes, and says exactly when it does |
| `GardenerExamples.QuizStopsTheRun` | domain/graph/gardener.py:511 | A run within its call cap is refused because a concept with a quiz has no provenance |
| `Gardener.EveryRunIsSafe` | domain/graph/gardener.py:166-546 | For every decision sequence the merges of a run are an acyclic forest of merges of unmastered seeds within one connected component, exactly their sources are retired, rows away from them stay, and all aliases follow the merges |
| `Gardener.TraceIsUnique` | domain/graph/gardener.py:166-546 | The inputs and the replies determine the whole run |
| `Gardener.MergedConceptsSurvive` | domain/graph/gardener.py:390-490 | Before the closing prune: following merges from any concept that was active ends in its own cluster at a concept the decisions left active |
| `Gardener.MergedConceptsAfterPrune` | domain/graph/gardener.py:390-511 | After the closing prune the concept that a merged one was absorbed into is active if and only if it has provenance of its own |
| `Gardener.ClustersAfterPrune` | domain/graph/gardener.py:390-511 | A decided cluster keeps an active concept through the whole run if and only if following the merges from one of its active concepts ends at a supported one |
| `GardenerExamples.SupportedConceptIsLost` | domain/graph/gardener.py:800-880 | A run that merges a supported concept into an unsupported one leaves neither active, nor any alias to either |
| `Gardener.RunsAddNoEdges` | domain/graph/gardener.py:409-511 | The edge rows after a run are exactly the rows from before it, keys unchanged, that have provenance and both of whose ends were not merged away and, if active, have provenance: no row a run inserts is left |
| `Gardener.NewRelationsAreLost` | domain/graph/gardener.py:409-511 | A relation is there after a run if and only if a row with its key outlasts the run, so one linked anew or carried over is gone unless a row with exactly its key was there before |
| `GardenerExamples.RepointedEdgeIsLost` | domain/graph/gardener.py:438-511 | A run over supported concepts repoints a supported edge to the merge target, and ends without any edge |
| `GardenerExamples.LinkIsLost` | domain/graph/gardener.py:406-511 | A run writes a link and ends without it |
| `Gardener.RunKeepsAliases` | domain/graph/gardener.py:390-511 | A run keeps an alias map on active concepts and leaves no edge on a merged concept |
| `Gardener.AliasesAfterRun` | domain/graph/gardener.py:390-511 | After the prune exactly the aliases are left whose final concept is supported or was inactive from the start, each pointing where the merges lead |
| `Gardener.SelectionCanOverrunTheCallBudget` | domain/graph/gardener.py:349-377 | Two clusters, batch size one and one allowed call: both are selected and the second batch cannot be registered |
| `GardenerExamples.CallBudgetIsOverrun` | domain/graph/gardener.py:262-377 | Every run over two linked pairs with one allowed call and batches of one takes both clusters and needs two calls |
| `Pruner.PruneOrphanGraphNodes` | domain/graph/orphan_pruner.py:71-143 | The statements, each but the last leaving foreign keys intact, remove exactly the unsupported edges and concepts and what hangs on them, and the summary counts both; the last one is refused exactly when another table refers to a concept it deletes |
| `Pruner.PruneSurvivors` | domain/graph/orphan_pruner.py:16-68 | A concept stays active exactly when it has provenance, inactive rows are untouched, and an edge stays exactly when it is supported and neither end is pruned |
| `Pruner.PrunedIsValid` | domain/graph/orphan_pruner.py:94-138 | What a prune leaves satisfies the schema if and only if nobody studies a concept it deletes: every other foreign key is taken care of, and an alias map on active concepts stays on them |
| `Pruner.PruneTwice` | domain/graph/orphan_pruner.py:71-143 | A second prune removes nothing |
| `Pruner.PrunedEdgesCount` | domain/graph/orphan_pruner.py:92-106 | The reported edge count is the number of edges removed exactly when no supported edge went with its concept |
| `Pruner.CascadedEdgeIsNotCounted` | domain/graph/orphan_pruner.py:92-106 | Of two concepts joined by a supported edge one is supported: the prune counts no edge and removes one |
| `Pruner.CascadeDeleteDocument` | adapters/db/knowledge_base.py:78-113 | The five deletions remove the document with its chunks, raw rows and provenance, each leaving foreign keys intact |
| `Pruner.DeleteDocument` | domain/knowledge_base/service.py:66-82 | A missing document is reported and changes nothing; otherwise the document goes, followed by a prune on request, whose refusal is passed on |
| `Pruner.ServeDeletion` | apps/api/routes/knowledge_base.py:41-64 | A deletion takes place exactly when the document exists and, with the prune, each active concept that is studied has the support of another document; otherwise nothing changes |
| `Pruner.DeletionCondition` | domain/knowledge_base/service.py:66-82 | The prune after a deletion goes through if and only if each active concept that is studied has the support of another document |
| `Pruner.QuizKeepsDocument` | domain/knowledge_base/service.py:66-82 | A document whose one concept has a quiz cannot be deleted with the prune |
| `Pruner.DeletionSurvivors` | domain/knowledge_base/service.py:66-82 | After deleting with pruning the active concepts are exactly the previously active ones supported by another document, with exactly the edges another document supports between them; the schema then holds exactly when each of the studied ones was among them |
| `Explore.LevelIsWalks` | domain/graph/explore.py:13-30 | The rows of the recursive query at h joins are exactly the ends of walks of length h |
| `Explore.RankedIsDistance` | domain/graph/explore.py:13-37 | The least hop over all enumerated walks is the shortest-path distance through active concepts, for exactly the concepts within the limit |
| `Explore.RankedIsActive` | domain/graph/explore.py:24-29 | Every ranked concept other than the root is active |
| `Explore.CloserNeighbour` | domain/graph/explore.py:13-37 | A concept ranked at a positive hop has a neighbour ranked one hop closer |
| `Explore.KeptAreNearest` | domain/graph/explore.py:216-217 | A concept left out by the node limit is at least as far as every concept kept |
| `Explore.RootKeptIffActive` | domain/graph/explore.py:207-217 | The root is among the returned nodes exactly when it is active |
| `Explore.KeptStayConnected` | domain/graph/explore.py:194-230 | With an active root each kept concept is reached from the root by a walk of its own hop distance inside the kept set |
| `Explore.KeptDistances` | domain/graph/explore.py:194-230 | With an active root distances inside the truncated node set are the true distances |
| `Explore.ConnectedIffRootActive` | domain/graph/explore.py:194-230 | The returned node set hangs together through the root exactly when the root is active |
| `Explore.InactiveRootIsCutOff` | domain/graph/explore.py:194-230 | An inactive root with one active neighbour: the neighbour is returned and not reached from the root inside the result |
| `Explore.NotFoundMeans` | domain/graph/explore.py:232-233 | Not found is raised exactly when no active concept lies within the hop limit |
| `Explore.KeptEdgesMeaning` | domain/graph/explore.py:235-264 | An edge is returned exactly when it joins kept concepts and fewer than max_edges such edges are heavier or equal with a lower id |
| `Explore.EdgesShowLinks` | domain/graph/explore.py:235-264 | When the edge limit cuts nothing, two kept concepts are neighbours exactly when a returned edge joins them |
| `ExploreMeaning.SubgraphMeaning` | domain/graph/explore.py:184-295 | Said of rows alone: not found means that no active concept is reached within the hops; otherwise the nodes are the nearest active ones by steps, name and id, with their least number of steps, and the edges the heaviest rows between them, the older of equals first, up to the limit |
| `Explore.AncestorChainMeaning` | domain/graph/explore.py:438-519 | Along the hierarchy adjacency, the chain lists the active concepts other than the concept itself by their distance, within the depth; what the hierarchy is in the rows says the next row |
| `ExploreMeaning.AncestorsMeaning` | domain/graph/explore.py:438-519 | A concept is in the chain exactly when it is active, another one, and reached in at most the depth of steps each of which has a row belongs_to from the lower to the upper or has_subtopic from the upper to the lower; each is listed once, by the least number of steps |
| `Packing.GreedyIsPacking` | domain/graph/pipeline.py:48-59 | Greedy in-order packing lists every item once, in order, and only a lone item may exceed the limits |
| `Packing.GreedyIsOptimal` | domain/graph/pipeline.py:48-59 | No in-order grouping under the same limits has fewer groups |
| `Packing.GreedyIsMaximal` | domain/graph/pipeline.py:49-53 | A group was closed only because it could not take the first item of the next one |
| `GraphWindows.MakeGraphWindows` | domain/graph/pipeline.py:26-61 | The batching loop produces the windows of the greedy grouping, one per chunk when batching is off, each named by its first chunk |
| `GraphWindows.WindowsArePacking` | domain/graph/pipeline.py:26-61 | Every chunk is in exactly one window, in order, and no grouping within the size has fewer windows |
| `GraphWindows.WindowSize` | domain/graph/pipeline.py:37-50 | A window has exactly the words of its chunks, and as many characters plus two for every separator |
| `GraphWindows.WindowBound` | domain/graph/pipeline.py:37-59 | In words a window of several chunks respects the size; in characters it exceeds the size by two for every separator at most |
| `BatchingMeaning.WindowText` | domain/graph/pipeline.py:48-61 | A window is named by its first chunk and its text is those of its chunks, each at its place, with exactly an empty line between |
| `GraphWindows.LettersOverflow` | domain/graph/pipeline.py:37-59 | For every size, as many one-character chunks as the size make one window that is longer by all its separators |
| `GraphWindows.CharWindowOverflow` | domain/graph/pipeline.py:37-59 | All windows of several non-empty chunks respect a size in characters, for all documents, exactly when the size is at most one |
| `Chunker.FindBestBreak` | adapters/parsers/chunker.py:8-29 | The break is the position after the last separator of the most preferred kind past the minimum offset, or the hard end |
| `Chunker.BestBreakMeaning` | adapters/parsers/chunker.py:8-29 | The break lies past the minimum offset and inside the region, and follows whitespace unless it is the hard end |
| `ChunkMeaning.BreakIsPreferred` | adapters/parsers/chunker.py:8-29 | An empty line goes before a line break, that before a full stop, a question mark and an exclamation mark in this order, each with a blank, and those before a blank; the break follows the last place of the first of them that stands past the minimum |
| `Chunker.ChunkByChars` | adapters/parsers/chunker.py:50-77 | Character chunking reads the specified windows and never raises its no-progress error |
| `Chunker.CharChunking` | adapters/parsers/chunker.py:50-77 | No non-blank character is lost, chunks are trimmed pieces of at most the size, neighbouring windows share at most the overlap, each step advances and the chunk count is bounded |
| `ChunkMeaning.CharChunksMeaning` | adapters/parsers/chunker.py:50-77 | The windows start at the text's start and each next one the overlap before the last end but past its start, until one reaches the end; each ends at the preferred break past its middle; the chunks are the stripped windows that are not blank, in order |
| `Chunker.FindWordEnd` | adapters/parsers/chunker.py:95-107 | The loop body finds the break of one word window and knows whether it is the last |
| `Chunker.WordBreak` | adapters/parsers/chunker.py:95-107 | A word window that is not the last breaks after whitespace, past its middle word and no later than its limit |
| `Chunker.ChunkByWords` | adapters/parsers/chunker.py:80-118 | Word chunking reads exactly the specified windows and terminates |
| `Chunker.ChunkText` | adapters/parsers/chunker.py:121-141 | Bad arguments are rejected in the order of the checks; otherwise the text is chunked in its unit |
| `Chunker.WordsAreWhole` | adapters/parsers/chunker.py:80-118 | A window that holds the first character of a word holds all of it |
| `Chunker.LostRunsAreShort` | adapters/parsers/chunker.py:108-118 | A run of words in no chunk is never longer than max(0, ceil(n/2) - 1 - overlap) |
| `Chunker.LossyTextLosesAWord` | adapters/parsers/chunker.py:108-118 | Below that overlap a text of n + 1 one-letter words with one line break loses a word |
| `Chunker.WordChunkingKeepsAllWords` | adapters/parsers/chunker.py:80-118 | Word chunking keeps every word of every text if and only if overlap >= ceil(n/2) - 1 |
| `ChunkMeaning.WordChunksMeaning` | adapters/parsers/chunker.py:80-118 | The same by words: first words advance by the size less the overlap, or by one, until a window holds the last word; each window ends at the preferred break past its middle word |
| `Text.TruncateTextLaws` | domain/graph/types.py:17-24 | Bounded text respects a positive bound, has no outer whitespace, and bounding it again changes nothing |
| `TextMeaning.StripMeaning` | domain/graph/types.py:21 | Stripping removes exactly whitespace, at both ends, and leaves none there |
| `TextMeaning.TruncateMeaning` | domain/graph/types.py:17-24 | A text that fits is kept stripped; any other is its front with room for the ellipsis, without the whitespace at its end, and the ellipsis |
| `TextMeaning.CollapseRun` | domain/graph/types.py:12-14 | In a normal form every run of whitespace is one space, and what stands before and after it is normalized by itself |
| `Text.WordCountJoin` | domain/graph/pipeline.py:38 | Joining two texts with a blank line neither splits nor merges words |
| `Text.Names.DedupeKeywords` | domain/graph/types.py:27-37 | One pass with the set of seen normal forms yields a list with every non-blank normal form once |
| `Text.Names.DedupeMeaning` | domain/graph/types.py:27-37 | Deduplication loses no non-blank normal form and repeats none |
| `TextMeaning.DedupeKeepsFirst` | domain/graph/types.py:27-37 | Deduplication keeps exactly the first keyword of every non-blank normal form, stripped, in order |
| `Text.Names.DedupeFixpoint` | domain/graph/types.py:27-37 | A list already deduplicated is returned unchanged |
| `Text.Names.DedupeConcat` | domain/graph/extraction.py:149 | Merging already deduplicated keyword lists is deduplicating their concatenation |
| `Grouping.TableStep` | domain/graph/extraction.py:104-124 | One item of the insertion-ordered dictionary loop is rejected, opens a group, or is folded into its group |
| `Grouping.KeysAreInOrder` | domain/graph/extraction.py:164-166 | The dictionary lists its keys in the order of their first appearance |
| `Grouping.GroupByFixpoint` | domain/graph/extraction.py:89-166 | Grouping entries that already have different keys gives them back |
| `Extraction.Normalizer.NormalizeConcepts` | domain/graph/extraction.py:89-124 | The first loop is the group-by of the mentions by normalized name |
| `Extraction.Normalizer.ConceptsMeaning` | domain/graph/extraction.py:89-124 | One concept per non-empty normalized name in order of first appearance, with the first name, the first longest context and description and the first most specific tier of its mentions |
| `Extraction.Normalizer.NamesAreDistinct` | domain/graph/extraction.py:91-107 | Emitted names are non-blank and pairwise different under normalization |
| `Extraction.Normalizer.ConceptsIdempotent` | domain/graph/extraction.py:89-124 | Normalizing the emitted concepts again, for the same chunk, changes nothing |
| `ExtractionMeaning.ConceptLaw` | domain/graph/extraction.py:89-124 | An emitted concept is spelled as the first payload entry of its normal form and has, over all of them, the first of the longest bounded contexts, the chunk's text standing in for a missing one, the first of the longest descriptions, and granular, subtopic, topic or umbrella, whichever of these comes first among their tiers |
| `ExtractionMeaning.ConceptsAreListed` | domain/graph/extraction.py:89-124 | Every non-blank normal form of the payload has exactly one concept, in the order of first entries |
| `Extraction.Normalizer.NormalizeEdges` | domain/graph/extraction.py:126-162 | The second loop is the group-by of the edges by normalized triple |
| `Extraction.Normalizer.EdgesMeaning` | domain/graph/extraction.py:126-162 | One edge per normalized triple without a blank part, in order of first appearance, with the first longest description, the keywords of all mentions deduplicated once, and the greatest weight clamped to 1..99 |
| `Extraction.Normalizer.EdgesIdempotent` | domain/graph/extraction.py:126-162 | Normalizing the emitted edges again changes nothing |
| `ExtractionMeaning.EdgeLaw` | domain/graph/extraction.py:126-160 | An emitted edge is spelled as the first payload entry of its triple and has the first of the longest descriptions, the greatest weight, each rounded down and kept between 1 and 99, and exactly the non-blank normal forms of all keywords, each once |
| `ExtractionMeaning.EdgesAreListed` | domain/graph/extraction.py:126-166 | Every triple of non-blank normal forms has exactly one edge, in the order of first entries |
| `Disambiguation.BuildSubBatches` | adapters/llm/providers.py:387-403 | The loop over items produces the greedy grouping under the token budget with overhead and the item limit |
| `Disambiguation.SubBatchesAreOptimal` | adapters/llm/providers.py:387-403 | The sub-batches list every item once in order, respect both limits except for a lone item, and no other in-order division needs fewer calls |
| `Disambiguation.MatchAnswers` | adapters/llm/providers.py:480-510 | Each item gets the last answer that names it, or a filler that creates a new concept with confidence 0 |
| `Disambiguation.DisambiguateBatch` | adapters/llm/providers.py:345-425 | One answer per item, in order, each tagged with the item name, from one question, one call or the sub-batches in turn; a raised call ends it |
| `Disambiguation.Scatter` | adapters/llm/providers.py:414-418 | Writing answers back by index fills the positions in input order |
| `Disambiguation.AnswersAreOwn` | adapters/llm/providers.py:414-418 | The answer at every position is the one its own sub-batch call gave to that item: answers never cross |
| `BatchingMeaning.ReplyMeaning` | adapters/llm/providers.py:345-515 | One query is asked by itself; of more, each is put to the call of its own sub-batch and gets the last answer there that names it, or one that creates a new concept |
| `ResolverDecisions.ResolverBudgets.ResetChunk` | domain/graph/types.py:140-143 | A new window starts with no calls spent and keeps the document count |
| `ResolverDecisions.ResolverBudgets.CanCallLlm` | domain/graph/types.py:145-154 | A call is allowed exactly when both caps have room, and the stop reason names the first exhausted one |
| `ResolverDecisions.ResolverBudgets.RegisterLlmCall` | domain/graph/types.py:156-161 | A registered call counts in both counters, is refused exactly when a cap is reached, and keeps both within their caps |
| `ResolverDecisions.ChooseBest` | domain/graph/resolver.py:455-468 | The scan over operations returns the specified choice |
| `ResolverDecisions.BestMeaning` | domain/graph/resolver.py:455-468 | The choice is the first of the strongest, most confident valid operations (merge over link over create) |
| `ResolverDecisions.BestExists` | domain/graph/resolver.py:455-475 | There is a choice unless no operation is valid |
| `ResolverDecisions.DecisionsNeedConfidence` | domain/graph/resolver.py:493-536 | A proposal merges or links exactly when it reaches the confidence floor and names a candidate; anything else creates |
| `ResolverOutcome.BestIsPreferred` | domain/graph/resolver.py:453-469 | The operation chosen is usable, and no usable one is of a kind that goes before it, or of its kind and more confident, or equally confident and earlier; merging goes before linking and linking before creating |
| `ResolverOutcome.BatchDecisionMeaning` | domain/graph/resolver.py:374-536 | Without candidates or a call left a concept is created; after a failed call or an unusable answer too; otherwise the decision merges or links exactly when the preferred operation of its own answer reaches the floor and names a candidate, with its alias and its relation or related_to |
| `ResolverDecisions.Asking.DecisionsAreAmong` | domain/graph/resolver.py:374-491 | Every decision of a batch points, if anywhere, at a candidate of its own concept |
| `ResolverDecisions.Asking.BatchLlmDisambiguation` | domain/graph/resolver.py:374-491 | Every concept of the batch gets a decision; at most one call is registered, and its registration never fails |
| `ResolverApply.ApplyDecision` | domain/graph/resolver.py:621-713 | Applying a decision writes the specified tables and result, and is refused exactly when a link-only mention resolves to the concept it links to |
| `ResolverApply.CreateOrReuse` | domain/graph/resolver.py:767-809 | A mention goes to the first active concept of its name ignoring case, else to the row inserted for it, which on a name conflict is the retired row of that name |
| `ResolverApply.AppliedMeaning` | domain/graph/resolver.py:621-713 | A decision keeps every schema constraint, removes and retires nothing, and leaves the alias and the provenance of the mention on an existing concept |
| `ResolverApply.MergedRowKeeps` | domain/graph/resolver.py:715-765 | Merging a mention into a concept keeps its name, only appends aliases and never makes its tier more general |
| `ResolverOutcome.DecisionOutcome` | domain/graph/resolver.py:621-809 | A mention goes to its merge target, else to the first active row of its name ignoring case, else to the row of exactly its name, else to a fresh row with its name, alias and tier; an existing active row takes the alias unless known, the more specific tier, and the dirty flag if anything changed; a reused row only the more general tier; no other row changes; the normal form leads there; a link upserts its edge of weight one from the mention to the target and is refused exactly when that is a loop |
| `ResolverOutcome.TierNamesAgree` | domain/graph/types.py:40-49 | The ranks of the tiers by name and by value agree |
| `ResolverApply.AliasesStayActive` | domain/graph/resolver.py:669-683 | A decision keeps the alias map on active concepts exactly when it does not reuse a retired row |
| `ResolverApply.RetiredRowIsReused` | adapters/db/graph/concepts.py:173-300 | A mention to be created under the exact name of a retired concept reuses that row, and its alias points at an inactive concept |
| `ResolverApply.LinksHaveNoProvenance` | domain/graph/resolver.py:692-706 | An edge row inserted by a link-only decision has no provenance |
| `Resolver.DeterministicStages` | domain/graph/resolver.py:218-276 | The first phase settles or queues every mention as specified; whom a mention settles on says `ResolverMeaning.MentionMeaning` |
| `ResolverMeaning.MentionMeaning` | domain/graph/resolver.py:202-292 | A mention becomes the concept its alias leads to if that is active; otherwise the one the rules pick in the tables the mentions before it leave; otherwise its result is what the decision of its batch gives, batches being consecutive and a call being left as long as fewer were made than both caps |
| `ResolverMeaning.AliasDecides` | domain/graph/resolver.py:224-242 | A mention whose normal form is an alias of an active concept becomes that concept, uncreated and without the model, whatever the rules and the model say |
| `Resolver.ApplyBatch` | domain/graph/resolver.py:285-290 | The decisions of a batch are written in order until one is refused |
| `Resolver.ResolveConceptsBatch` | domain/graph/resolver.py:202-292 | The two phases together write the specified tables and results and spend the specified calls |
| `Resolver.ResolvedMeaning` | domain/graph/resolver.py:202-292 | Unless a waiting mention that a call can reach is offered its namesake the window is not refused; a window with distinct names that is not refused has exactly the results of the named mentions, and every alias leads to the result of its own mention |
| `Resolver.NeverRefused` | domain/graph/resolver.py:202-292 | Unless a waiting mention that a call can reach is offered its namesake, no reply of the model gets a statement of the window refused |
| `Resolver.RefusedIsNamesakeLink` | domain/graph/resolver.py:692-706 | A decision among active candidates is refused exactly when it links a mention to the concept of its own name |
| `Resolver.SettledNamesakesNeverRefuse` | domain/graph/resolver_decision.py:15-68 | No window can be refused when the lexical or vector rule settles every mention that is offered its namesake |
| `ResolverRefusals.RefusalIsPossible` | domain/graph/resolver.py:202-292 | Conversely, when a waiting mention that a call can reach is offered its namesake, a model that links mentions to their namesakes gets the window refused |
| `ResolverRefusals.RefusalCondition` | domain/graph/resolver.py:202-292 | Some model gets a statement of a window refused if and only if a waiting mention that a call can reach is offered its namesake |
| `ResolverRefusals.LoneWindowIsRefused` | domain/graph/resolver.py:692-706 | A window of one mention, offered the concept of its name and linked to it, is refused |
| `Resolver.OneResultPerConcept` | domain/graph/resolver.py:202-292 | Under the same condition, when no name is blank, there is exactly one result per mention, in input order, recorded with alias and provenance |
| `Resolver.WindowKeepsAliases` | domain/graph/resolver.py:202-292 | Resolving a window keeps the alias map on active concepts when no retired row holds the name of a mention |
| `Resolver.MergedNamesResolve` | adapters/db/graph/concepts.py:65-99 | After a gardener merge every alias of the retired concept is an exact match for the merge target |
| `ResolverMeaning.MergedMentions` | domain/graph/resolver.py:224-242 | After a gardener merge, a mention by any alias of the retired concept becomes the target |
| `GraphBuild.ExtractionNames` | domain/graph/pipeline.py:153-161 | What extraction emits meets the condition for one result per concept |
| `GraphBuild.EdgeBuiltMeaning` | domain/graph/pipeline.py:167-196 | An extracted edge with two resolved, different ends has a row afterwards; nothing else about concepts and aliases changes |
| `GraphBuild.NoEdgeIsLost` | domain/graph/pipeline.py:167-196 | At the end of the edge loop every extracted edge with two resolved, different ends has a row |
| `GraphBuild.BuildEdges` | domain/graph/pipeline.py:167-196 | The edge loop of a window writes what is specified and counts it; which edges that is say the next rows |
| `GraphBuildMeaning.WindowEdges` | domain/graph/pipeline.py:151-193 | In a finished window an extracted edge whose source and target name concepts i and j with different ids has a row from the id of i to the id of j under its stripped relation; every row and every provenance changed since the resolver is of such an edge |
| `GraphBuildMeaning.WindowTotals` | domain/graph/pipeline.py:158-195 | Every key ends with its weight plus those of its extracted edges up to the cap; the counters are the numbers of edges with two different resolved ends, of created and of merged concepts |
| `GraphBuildMeaning.WindowHandsOver` | domain/graph/pipeline.py:163-195 | Exactly those edges are upserted, in order, with bounded description and deduplicated keywords, and exactly their rows get provenance in the chunk |
| `GraphBuild.WindowAligned` | domain/graph/pipeline.py:153-165 | Unless the window may be refused, whatever the model replies the zip of concepts and results is aligned, and every endpoint it yields is an existing concept |
| `GraphBuild.WindowMeaning` | domain/graph/pipeline.py:129-196 | Unless the window may be refused it is finished: every concept has alias and provenance, every changed edge row joins two different ids resolved in the window and has provenance, no resolvable edge is lost, and each concept counts as created or merged |
| `GraphBuild.BuildWindow` | domain/graph/pipeline.py:129-196 | One pass of the serial loop writes what is specified for the window and keeps the document count equal to the calls of its windows |
| `GraphBuild.DocumentMeaning` | domain/graph/pipeline.py:99-206 | Over a document each window registers at most its cap, the sum stays within the document cap, nothing is lost, created plus merged is the number of extracted concepts, and no statement is refused when no window may be or the lookups settle every namesake |
| `GraphBuild.DocumentFinishes` | domain/graph/pipeline.py:128-206 | Unless some window may be refused the whole document is built, whatever the model replies |
| `GraphBuild.SettledDocument` | domain/graph/pipeline.py:128-206 | When the lookups settle every namesake no window of any document may be refused |
| `DocumentRefusals.DocumentAgrees` | domain/graph/pipeline.py:128-206 | Models that answer alike in the calls of the first windows build the same document so far |
| `DocumentRefusals.RiskIsRefused` | domain/graph/pipeline.py:128-206 | When a build comes to a window that may be refused, some model that answers in the same way so far gets the document refused |
| `DocumentRefusals.DocumentRefusalCondition` | domain/graph/pipeline.py:128-206 | Some model gets a document refused if and only if some model brings its build to a window in which a waiting mention that a call can reach is offered its namesake |
| `GraphBuild.BuildGraph` | domain/graph/pipeline.py:64-221 | The loop over extracted windows ends with the specified tables and counters, or reports that a statement was refused exactly when the specified document was |
| `GraphBuild.WindowsNameChunks` | domain/graph/pipeline.py:26-61 | Every extracted window is named by a chunk that it holds, so its provenance refers to an existing chunk |
| `GraphBuild.BuildGraphForChunks` | domain/graph/pipeline.py:64-221 | Chunks are batched into windows, extracted and built: the tables and counters are those specified for the windows of the chunks |
| `ChatMessages.EveryRunMovesOn` | adapters/db/chat.py:527-619 | Under any sequence of added rows and changes of status, superseding as its statement reads among them, statuses only move forward, and the payload a row had when it left generating stays |
| `ChatMessages.NothingIsSuperseded` | adapters/db/chat.py:597-619 | Without superseding, which the declared table refuses, no row ever becomes superseded |
| `ChatMessages.FirstOutcomeWins` | adapters/db/chat.py:527-575 | The first of finalizing and failing wins, and repeating a change does nothing |
| `ChatMessages.CleanupIsThorough` | adapters/db/chat.py:578-588 | After the startup cleanup no row is generating, and a second cleanup changes nothing |
| `ChatMessages.ChatDb.CleanUp` | adapters/db/chat.py:578-588 | The cleanup commits exactly that change, or none |
| `ChatMessages.ChatDb.MarkSuperseded` | adapters/db/chat.py:597-619 | Superseding is refused when the table lacks the column its statement names; otherwise a complete assistant message is superseded and the result says whether one was |
| `ChatStream.Stream.PersistTurn` | domain/chat/session_memory.py:187-246 | A whole turn is committed, or nothing of it; what is left pending for a later commit of the request is stated too |
| `ChatStream.Stream.WriteAhead` | domain/chat/stream.py:237-255 | The write-ahead commits the message of the user and a generating placeholder, tolerating only the failure to create the latter |
| `ChatStream.Stream.Relay` | domain/chat/stream.py:549-555 | The deltas are relayed unchanged, and responding is announced once, with the first visible one |
| `ChatStream.Stream.Generate` | domain/chat/stream.py:498-668 | The reply text is the specified one and the deltas shown are those of the stream; partial text is kept only once complete, and a reply of nothing becomes a stock phrase |
| `ChatStream.Stream.Close` | domain/chat/stream.py:784-811 | The placeholder is finalized with failures swallowed, or the turn is persisted with failures raised; a finalization left pending by a title or summary step that broke off is stated too |
| `ChatStream.Stream.Respond` | domain/chat/stream.py:131-813 | A consumed stream has exactly one terminal event, its last, phases that never go back, and responding at most once and before any visible delta. When a generated reply ends in final, it is the envelope of the shown deltas joined and stripped, of the question or of the blocking text, or of the stock phrase if that is empty; with a placeholder whose closing goes through, the committed row after the user message holds exactly that |
| `ChatStream.Stream.Serve` | adapters/db/dependencies.py:10-25 | A request around a stream, its session committed or only closed, ends with the specified rows |
| `ChatStream.PlaceholderOutcome` | domain/chat/stream.py:180-197 | However the request ends, a placeholder is complete exactly when the stream ended in final and the finalization came to be committed by the stream or the caller, failed exactly when it ended in an error that was no refused statement and the marking held, and generating otherwise |
| `StreamMeaning.FinalCondition` | domain/chat/stream.py:203-813 | A stream ends in final exactly when a ready reply is persisted, or the write-ahead starts and every step up to the end goes through and there is a placeholder or the turn is persisted; what final says is the ready reply, the notice for an empty workspace, or the envelope of the generated text |
| `StreamMeaning.FailedMeaning` | domain/chat/stream.py:170-200 | A placeholder of a stream that breaks off has failed exactly when the first step to go wrong broke down and the marking is committed; it then keeps the reply if that was complete and nothing otherwise |
| `StreamMeaning.TroubleIsFirst` | domain/chat/stream.py:203-813 | How a stream breaks off is decided by the first of its steps, in order, that does not go through |
| `ChatStream.NothingStaysGenerating` | domain/chat/stream.py:131-200 | If the database statements succeed, a created placeholder ends complete with final or failed with error, however the request ends |
| `ChatStream.RefusalLeavesGenerating` | domain/chat/stream.py:180-192 | A stream that dies of a refused statement leaves its message generating even if the caller commits, because the handler marks it in the spoiled transaction |
| `ChatStream.FinalMayBeLost` | domain/chat/stream.py:784-813 | A stream whose closing does not hold still ends in final, and leaves its message generating exactly then: a broken title or summary step does so unless the caller commits |
| `ChatStream.ErrorMayKeepTheTurn` | domain/chat/session_memory.py:187-246 | When the caller commits, a turn whose title or summary step broke off ends in an error and is stored all the same, and one whose answer broke off leaves the message of the user alone |
| `ChatStream.UserMessageStoredTwice` | domain/chat/stream.py:237-255 | However the request ends, when creating the placeholder breaks down without spoiling the transaction the message of the user is stored twice; when the database refuses it, once |
| `ChatStream.EarlierRowsStay` | domain/chat/stream.py:131-200 | However the request ends, a stream only adds rows, none for an unknown session or user, and at most one generating row, which the startup cleanup fails |
| `RateLimiter.MakeConfig` | core/rate_limiter.py:74-86 | A concurrency below one is rejected; negative retries become 0, delays below 0.1 become 0.1, and other values stay |
| `RateLimiter.StepKeepsInv` | core/rate_limiter.py:97-130 | Every step of every thread keeps free permits plus holders at the configured number and every call within its accounts |
| `RateLimiter.EveryRunIsSafe` | core/rate_limiter.py:97-130 | In every interleaving of any number of calls at most max_concurrent run or back off at once, each calls fn at most max_retries + 1 times, sleeps at most base_delay * (2^max_retries - 1) in all, and releases what it acquired |
| `RateLimiter.NeverStuck` | core/rate_limiter.py:102-130 | In every reachable state with an unfinished call some thread can move |
| `RateLimiter.RunsAreBounded` | core/rate_limiter.py:102-130 | Every run ends: a call takes at most 4 * max_retries + 4 steps |
| `RateLimiter.Limiter.Execute` | core/rate_limiter.py:97-130 | A call ends at the first attempt that is not rate limited or at the last allowed one, with its outcome; it sleeps exactly the delays drawn before, within the bound, and the permit count is restored on every exit |
| `Tokenization.SearchPrefix` | core/tokenization.py:55-63 | For any counter the search ends at a prefix that fits whose one-longer neighbour in the range does not; for a monotone one that is the longest fit in the range |
| `Tokenization.TruncateToTokens` | core/tokenization.py:30-68 | Every branch returns what is specified; for a counter that is monotone on prefixes the cut is the longest fit in the range; for one that is also subadditive the result fits the budget exactly unless the text needs cutting and the suffix alone exceeds the budget |
| `TokenEstimate.EstimateBudget` | core/tokenization.py:10-68 | With the word estimate that replaces a missing tokenizer, a suffix keeps every budget that it fits alone if and only if it does not begin with a blank or its words come in tens |
| `TokenEstimate.EstimateKeepsBudget` | core/tokenization.py:10-68 | With such a suffix the cut text fits its budget unless the suffix alone does not |
| `TokenEstimate.EstimateOverruns` | core/tokenization.py:10-68 | With any other suffix some text overruns its budget by one |
| `Tokenization.FoundIsLongest` | core/tokenization.py:55-63 | The prefix found is the longest fit of the whole text exactly when the searched range was not too short for it |
| `Tokenization.SearchRangeMeaning` | core/tokenization.py:55-56 | The search reaches the whole text, or the target's share of it rounded down and half as much again, and at least 64 characters more |
| `Tokenization.EvenTextKeepsMost` | core/tokenization.py:55-63 | When every prefix has at least three quarters of its share of the tokens, the prefix kept is the longest of the whole text that leaves room for the suffix |
| `Tokenization.TruncationMeaning` | core/tokenization.py:50-68 | A cut text is a front of the text and the suffix: the front ends at the last blank of a prefix that leaves room for the suffix, without whitespace, and on an even text no longer prefix leaves room |
| `Tokenization.CutEndsAWord` | core/tokenization.py:65-68 | The cut is at the last blank of the prefix whenever one follows its first character |
| `AgentLoop.ToolRegistry.Register` | core/tools.py:64-68 | A duplicate name is refused without effect; otherwise the tool is added last |
| `AgentLoop.Executor.ExecuteToolCalls` | core/tools.py:139-159 | One reply per call, in order, with the id of the call |
| `AgentLoop.RoundsMeaning` | core/agent_loop.py:93-144 | The rounds taken are those in which the model asked for tools, each after seeing everything said before, and stop before the budget only where it asked for none |
| `AgentLoop.Run` | core/agent_loop.py:69-160 | The loop takes exactly those rounds, raises exactly when the model call after them raises, and otherwise ends with the text, messages, counters and usage they determine |
| `AgentLoop.RoundsAreTranscript` | core/agent_loop.py:118-139 | Every request for tools is followed by exactly its replies, in order and with matching ids |
| `AgentLoop.LoopMeaning` | core/agent_loop.py:88-160 | The result extends the input by such a transcript, tool_calls_made is the number of tool messages appended, iterations respect the cap, and the budget is exhausted exactly when every permitted round asked for tools |
| `AgentStory.LoopStory` | core/agent_loop.py:69-160 | What a run appends is said by the model, asked in turn with everything before it, or replies to its calls with exactly the result or the error each came to; the run goes on as long as the model asks for tools and the bound allows; the text is the last thing it said; calls, iterations and tokens are those of the story |

## Left out

- Other workspaces, and the rows of quizzes, topic states, practice and chat sessions beyond which concepts they refer to.
- Descriptions, embeddings and timestamps of concepts, and confidence and method of alias and merge-log rows: no result here depends on them; whether they change is a parameter where it decides a dirty flag.
- Raw concept and raw edge rows written per window: append-only copies of the payload.
- The scoring of lexical and vector candidates, and `resolve_concept`, the one-by-one resolver that the pipeline does not call.
- The choice of effective limits from settings, the recency filter and the order of seed queries.
- `get_full_subgraph`, `pick_lucky`, concept detail and listing: they would only add easy members.
- Provider errors other than the two kinds the callers catch, and API calls below the registered ones: one registered call may be split into several.
- Deleting a chat session with its messages.
- Streams abandoned before their end: only a consumed stream, or the startup cleanup, settles a placeholder.
- The contents of prompts, evidence, envelopes, actions and traces of a stream; a rollback that itself fails.
- Logging, spans, events, authentication, routes, user interface, PDF parsing, retrieval and the tutor's state block.
- The detection of rate-limit errors from exception names and messages: an outcome of the call here.
- JSON decoding and schema validation of payloads and tool arguments: outcomes here.
