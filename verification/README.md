# Research Assistant: verified model of the agent, the document store, retrieval and sessions

A Dafny 4.11 model of four components of the Insight research assistant backend, with proofs of what
they promise over all inputs, all tool behaviours and all runs.

* **Agent** (`Tools`, `Graph`, `Schedule`, `Trace`, `Executor`, `Json`, `Text`, `JsonScan`, `Fences`,
  `Planner`, `Orchestrator`). Tools are an arbitrary function of every call made so far (`Tools.ToolHost`), so each
  result holds for every stateful tool. A plan's dependency graph is studied twice: through chains and
  cycles (the reference) and through the levels a wave scheduler computes; `Executor.Execute` is proved
  against both.
* **Document store** (`VectorStore`, `Vectors`, `Embeddings`, `Loaders`, `Chunking`, `Ingestion`,
  `IngestionSafety`). A transaction is a local copy of the tables that is assigned back on commit and
  dropped on rollback; the vector store has no transactions. Every stage can fail.
* **Retrieval** (`Numbers`, `Ranking`, `BM25`, `Retrieval`, `Answering`). Scores are real numbers. `DocumentTables`
  holds the rows that ingestion writes and retrieval reads; `Answering` joins the two over runs.
* **Sessions** (`Sessions`, `AuthService`). Each use-case is one atomic step; claims are about whole runs.

`dafny verify dfyconfig.toml` checks everything.

## What is assumed

* Library calls are parameters with only these properties: `sqrt` is the root of a non-negative number,
  `log` is positive above one, the JSON parser and the identifier parser are arbitrary partial functions,
  the splitter, the tokenizer, the token hash and the password check are arbitrary functions.
* A FAISS flat index answers an exact inner-product top-k in any order among ties, padded with -1
  (`VectorStore.IsIndexAnswer`).
* Fresh identifiers and refresh tokens differ from those stored; document identifiers contain no colon; a chunk
  row's identifier parses back to itself, and the labels `unknown:<position>` do not parse.
  The embedder returns one vector for each text (`Embeddings.HashingEmbedder.Embed` does).
* Every tool call returns its own result object.
* Each service call runs alone; nothing in the code locks rows or the vector store.

## Where the code does not do what its documentation says

* The planner's documentation says that any failure degrades to a fallback plan, so that there is always a
  path to an answer (backend/app/modules/agent/planner.py:6-9). Plans with a dependency cycle or a repeated
  id pass the planner and make the whole run raise. `Planner.CyclicPlanIsAccepted` and
  `Planner.RepeatedIdIsAccepted` give such steps; `Orchestrator.AgentService.Run` states exactly when a run
  raises.
* The extraction promises to tolerate markdown fences and trailing prose
  (backend/app/modules/agent/planner.py:125-126). It drops the whole line of the opening fence, so an object on
  that line is lost: `Fences.ObjectIsFoundIff`, `Fences.SameLineFenceLosesObject`. And it rewrites every line
  break in a fence as a line feed, also U+2028, U+2029 and U+0085, which JSON allows within strings; the rewritten
  object no longer parses and is lost: `Fences.FenceIsRemoved`, `Fences.SeparatorIsRewritten`,
  `Fences.RewrittenObjectIsLost`. And it counts the braces within strings, so with text around it an object is
  found exactly when all its braces nest: `Fences.ObjectIsFoundIff`, `Fences.BraceInStringLosesObject`.
* Ingestion promises that a failure marks the document failed and purges partial vectors, with no orphan vectors
  (backend/app/modules/rag/services.py:7-8). No document that is not READY ever owns a vector
  (`IngestionSafety.EveryReachableState`). But a failure need not mark the document: it stays PROCESSING when
  re-reading it after the first commit fails or the clean-up does, and READY when the save after the commit
  fails, or the clean-up after a failed re-read (`IngestionSafety.MarkedFailedIff`), until it is deleted
  (`IngestionSafety.StatusIff`, `IngestionSafety.RaisedNotFailedIff`). And when the re-read after the commit
  fails and the clean-up succeeds, the FAILED document keeps its chunk rows; nothing else leaves such rows
  (`IngestionSafety.IngestIsSafeIff`, over runs `IngestionSafety.StrandedIff`).
* The lexical scorer divides by zero when the query has a token and no candidate has one:
  `BM25.ScoreFailsWithoutTokens`, `BM25.ScoreCanFail`; `BM25.ScoreFailsIff` for other parameters.
* One vector id that does not parse, ahead of one that does, gives chunks other vectors' scores:
  `Retrieval.AlignedIff`, `Retrieval.MisalignedScore`. Ids written by ingestion always parse
  (`IngestionSafety.StoredIdsAreWellFormed`), so without such crashes answers are right in every state of a run
  (`Answering.AnswersAreOwn`).
* After a crash between the two files of a save the ids no longer fit the vectors, one label for each, its own id or
  unknown, exactly when an entry of the last complete save was deleted since: `VectorStore.CrashLabelsRightlyIff`, `VectorStore.CrashAfterDeleteMislabels`.
  When vectors were only added, they get labels that do not parse, and retrieval then gives chunks other vectors'
  scores: `Retrieval.CrashStaysWellFormedIff`, `Retrieval.CrashAfterAddMisaligns`. When the crash leaves more ids
  than vectors, later additions are mislabelled too: `VectorStore.SurplusTakesNewVectors`.

## Model

| member | source | states |
|---|---|---|
| Tools.ToolHost.Call | backend/app/modules/agent/tools/base.py:71-72 | a tool call's outcome may depend on every call made before it |
| Tools.ToolRegistry.constructor | backend/app/modules/agent/tools/registry.py:20-22 | a registry starts empty |
| Tools.ToolRegistry.Register | backend/app/modules/agent/tools/registry.py:24-29 | refuses exactly empty and known names; otherwise adds the spec under its own name and loses nothing |
| Schedule.IndexIsExact | backend/app/modules/agent/executor.py:161-167 | the step map has exactly the plan's ids, and with unique ids each id maps to its own step |
| Schedule.KeepInOrder | backend/app/modules/agent/executor.py:170-172 | scheduling order within the remaining steps is declaration order |
| Schedule.GraphIsTheFields | backend/app/modules/agent/executor.py:46-47 | the dependency graph has the steps' ids, and under each exactly the ids that step lists |
| Schedule.CyclicIffCircle | backend/app/modules/agent/executor.py:55-58 | there is a cycle exactly when some planned steps list each other in a circle |
| Graph.LevelIsChainBound | backend/app/modules/agent/executor.py:49-54 | a step is finished after k waves exactly when no dependency chain ending in it is longer than k |
| Graph.WaveIsLongestChain | backend/app/modules/agent/executor.py:49-54 | the wave a step runs in is the length of its longest dependency chain |
| Graph.CycleNeverReady | backend/app/modules/agent/executor.py:50-58 | a step on a cycle never becomes ready |
| Graph.LongChainIsBlocked | backend/app/modules/agent/executor.py:55-58 | a chain longer than the plan closes a cycle that blocks its end (pigeonhole) |
| Graph.FinishableIffNotBlocked | backend/app/modules/agent/executor.py:49-69 | a step finishes exactly when no cycle is reachable from it, within as many waves as there are steps |
| Graph.StuckMeansUnblocked | backend/app/modules/agent/executor.py:55-58 | when no step is ready, what has finished is exactly what no cycle blocks |
| Graph.CyclicIffSomeBlocked | backend/app/modules/agent/executor.py:55-58 | the graph has a cycle exactly when some step is blocked |
| Graph.SubgraphAcyclic | backend/app/modules/agent/planner.py:176-206 | dropping steps or dependencies never creates a cycle |
| Schedule.RunOrderIsDepthSort | backend/app/modules/agent/executor.py:49-69 | what runs is exactly the unblocked steps, each once; each has a longest dependency chain, and they are sorted by its length and then by declaration |
| Schedule.DependenciesRunFirst | backend/app/modules/agent/executor.py:3-7 | a step that runs does so after every planned step it lists |
| Trace.DecisionTraceLogger.Record | backend/app/modules/agent/decision_trace.py:23-26 | the trace is append-only |
| Trace.AgentMemory.Remember | backend/app/modules/agent/memory.py:22-23 | remembering overwrites a step's entry in place or appends it |
| Trace.PutNewAppends | backend/app/modules/agent/memory.py:22-23 | a new step's entry goes to the end of the scratchpad |
| Trace.PutKnownOverwrites | backend/app/modules/agent/memory.py:22-23 | a known step's entry is overwritten where it stands and nothing else changes |
| Executor.Executor.Invoke | backend/app/modules/agent/executor.py:123-144 | one call is made; the result says what it returned, or an error when it raised or returned anything else, under the step's and the tool's names |
| Trace.FoldReports | backend/app/modules/agent/executor.py:123-144 | every outcome is reported so, and counts as a success exactly when a result with status ok was returned |
| Executor.Executor.RunStep | backend/app/modules/agent/executor.py:71-121 | result, scratchpad, trace and calls are those of the step function |
| Trace.RunStepIsBlock | backend/app/modules/agent/executor.py:80-121 | a step appends one block: skipped when its tool is unknown or closed to the role, or started, k numbered retries after k calls that did not succeed with k at most the retry limit, finished; k + 1 calls with its own arguments; the result reports the first success or the last failure |
| Trace.StepSucceedsIff | backend/app/modules/agent/executor.py:96-121 | a step is ok exactly when its last call succeeded; otherwise all retries were used, and a raise leaves an error |
| Trace.StepRunIsUnique | backend/app/modules/agent/executor.py:96-121 | that description leaves no freedom: block, calls and result are determined |
| Trace.ResultNamesItsStep | backend/app/modules/agent/executor.py:123-144 | a step's result carries that step's id, whatever the tool put there |
| Executor.IndexSteps | backend/app/modules/agent/executor.py:161-167 | succeeds exactly for unique ids and otherwise names the first repeated one |
| Executor.ReadyIsWave | backend/app/modules/agent/executor.py:50-54 | the ready list is the next wave in declaration order |
| Executor.EmptyWave | backend/app/modules/agent/executor.py:55-58 | nothing is ready exactly when all that can run has run; something remains exactly when there is a cycle |
| Executor.Executor.RunWave | backend/app/modules/agent/executor.py:59-68 | runs the ready steps one after the other and records each result |
| Executor.Executor.Execute | backend/app/modules/agent/executor.py:36-69 | raises exactly for a repeated id (then nothing ran) or a cycle (then exactly the unblocked steps ran); otherwise runs the steps in depth order and returns their results |
| Trace.RunAllIsBlocks | backend/app/modules/agent/executor.py:59-68 | a run's trace is one contiguous block per step in run order, with the matching calls and results |
| Executor.ExecutionRecord | backend/app/modules/agent/executor.py:36-69 | from an empty scratchpad, memory is the run order with each step's result, also when the run raises; the results cover exactly the unblocked steps |
| Text.StripTrims | backend/app/modules/agent/planner.py:127 | stripping removes white space from both ends and only that |
| Text.SpacesAndBreaks | backend/app/modules/agent/planner.py:127-129 | which characters are white space and which end a line |
| Text.LineEnds | backend/app/modules/agent/planner.py:129 | a line ends at each line break, and a carriage return with a line feed is one |
| Text.SplitThenJoin | backend/app/modules/agent/planner.py:129-134 | for every text, splitting into lines and joining with line feeds makes each line break a line feed and drops a last one |
| Text.LineFeedsIff | backend/app/modules/agent/planner.py:129-134 | that keeps a text exactly when the line feed is its only line break |
| JsonScan.ScanObject | backend/app/modules/agent/planner.py:140-154 | finds the shortest balanced text from the first brace on, or reports that there is none |
| JsonScan.FirstObjectUnique | backend/app/modules/agent/planner.py:140-154 | there is at most one such text |
| JsonScan.ExtractJson | backend/app/modules/agent/planner.py:124-154 | the whole text if it parses, else the scanned slice if that parses, and only objects |
| JsonScan.ExtractedIff | backend/app/modules/agent/planner.py:135-154 | an object is extracted exactly when the text parses to it, or does not parse and its first balanced part does |
| JsonScan.RenderNested | backend/app/modules/agent/planner.py:142-148 | a printed JSON value without braces in its leaves has properly nested braces |
| JsonScan.ScanFindsObject | backend/app/modules/agent/planner.py:140-154 | behind any prose and before any suffix, the scan finds the printed object itself exactly when no brace opens in the prose and the braces inside the object nest, those in its strings included |
| Fences.ExtractsFromProse | backend/app/modules/agent/planner.py:124-154 | prose, a printed object, any suffix, fenced or not: the whole text if it parses, else exactly the object, provided its braces nest and the line of an opening fence ends before it |
| Fences.ObjectIsFoundIff | backend/app/modules/agent/planner.py:127-154 | the object is found exactly when its braces nest and it is not on the line of an opening fence, whatever follows it; there it is lost whatever follows without an opening brace |
| Fences.BraceInStringLosesObject | backend/app/modules/agent/planner.py:140-154 | a closing brace in a string, with text after the object, loses it |
| Fences.BraceInProseLosesObject | backend/app/modules/agent/planner.py:140-154 | so does a brace in the prose before it |
| Fences.ExtractsBehindFence | backend/app/modules/agent/planner.py:124-154 | an object on the line after a fence with any tag is found exactly when its braces nest, whatever follows it |
| Fences.SameLineFenceLosesObject | backend/app/modules/agent/planner.py:128-134 | a fence opened and closed on one line yields nothing |
| Fences.FenceIsRemoved | backend/app/modules/agent/planner.py:127-134 | a fence with any tag and white space around it is removed; its stripped body is kept exactly when the line feed is its only line break, and otherwise has its line breaks rewritten |
| Fences.SeparatorIsRewritten | backend/app/modules/agent/planner.py:129-134 | a line separator (U+2028) inside a fence comes out as a line feed |
| Fences.RewrittenObjectIsLost | backend/app/modules/agent/planner.py:129-154 | a fenced object that no longer parses with line feeds for its line breaks is lost, unless a beginning of it parses |
| Fences.ExtractsFromFence | backend/app/modules/agent/planner.py:124-139 | a fenced object is extracted, braces in its strings included, when it parses with line feeds for its line breaks |
| Planner.ParseSteps | backend/app/modules/agent/planner.py:157-209 | keeps exactly the well-formed steps with a usable tool among the first ones; none kept of some listed means unusable |
| Planner.ReadStepIsExact | backend/app/modules/agent/planner.py:176-206 | an item is kept exactly when its id, tool and arguments are well formed and the role may use the tool; the call transcribes it |
| Planner.ParsedStepsAreExact | backend/app/modules/agent/planner.py:166-209 | exactly the usable items among the first ones are kept, in order; the list is unusable exactly when it is not empty and none of them is usable |
| Planner.KnownIdsAreListed | backend/app/modules/agent/planner.py:170-174 | the known ids are exactly the non-empty ids of listed items |
| Planner.ReadDependenciesAreListed | backend/app/modules/agent/planner.py:191-198 | kept dependencies are exactly the listed ones that name another listed step |
| Planner.KeptGraphIsSubgraph | backend/app/modules/agent/planner.py:170-206 | the plan's dependency graph is part of the listed one |
| Planner.KeptIdsDistinct | backend/app/modules/agent/planner.py:176-206 | filtering and truncation keep unique ids unique |
| Planner.FilteringNeverDeadlocks | backend/app/modules/agent/planner.py:170-209 | steps listed with unique ids and no cycle give an executable plan of available tools, whatever is dropped and whatever is registered later |
| Planner.CyclicPlanIsAccepted | backend/app/modules/agent/planner.py:183-209 | two steps that wait for each other are accepted as a plan that cannot run |
| Planner.RepeatedIdIsAccepted | backend/app/modules/agent/planner.py:176-209 | two steps with one id are accepted as a plan that cannot run |
| Planner.Planner.constructor | backend/app/modules/agent/planner.py:34-45 | the step limit is at least one |
| Planner.Planner.Plan | backend/app/modules/agent/planner.py:47-76 | only a blank query is refused; every reply yields the plan for it or the one-step fallback |
| Planner.PlanIsTheModelsOrAsks | backend/app/modules/agent/planner.py:47-89 | the plan is the model's usable steps and rationale when there are such; in every other case one retrieval step that asks the query, with the reason, which can always be executed |
| Planner.AvailableStepsStart | backend/app/modules/agent/executor.py:81-96 | a step whose tool is available is started and called, not skipped |
| Orchestrator.CollectCitations | backend/app/modules/agent/orchestrator.py:110-123 | the citations returned are exactly those of successful retrievals that cite their chunk first, in the order of the steps and of their citations |
| Orchestrator.CitationsAreFirst | backend/app/modules/agent/orchestrator.py:110-123 | the same, in terms of the planned steps' results alone |
| Orchestrator.CitedIff | backend/app/modules/agent/orchestrator.py:113-122 | a chunk is cited exactly when a successful retrieval of a planned step cites it |
| Orchestrator.EveryChunkOnce | backend/app/modules/agent/orchestrator.py:117-122 | every cited chunk is kept exactly once, by its first citation, in order |
| Orchestrator.AgentService.Run | backend/app/modules/agent/orchestrator.py:47-85 | raises exactly for a blank query or a plan with a repeated id or a cycle; otherwise returns every result and the complete trace |
| Orchestrator.RunTraceGrammar | backend/app/modules/agent/orchestrator.py:47-77 | the trace is query_received, plan_created, one block per step in run order, run_finished, with one result per planned step |
| Orchestrator.CompletedRunsAnswer | backend/app/modules/agent/orchestrator.py:88-107 | a completed run answers with its last declared step's output, with the note exactly when some step failed |
| Orchestrator.EmptyPlanAnswer | backend/app/modules/agent/orchestrator.py:94-95 | exactly a plan without steps is answered as needing none |
| Orchestrator.ResultsNameTheirSteps | backend/app/modules/agent/executor.py:142-143 | in a completed run every result carries the id of the step it is filed under |
| Orchestrator.SilentLastStep | backend/app/modules/agent/orchestrator.py:94-99 | so a last step without output is reported under its own id |
| Orchestrator.ListedStepsComplete | backend/app/modules/agent/orchestrator.py:47-85 | listed steps with unique ids and no cycle lead to a completed run in which no step is skipped |
| Orchestrator.WellFormedReplyCompletes | backend/app/modules/agent/orchestrator.py:47-85 | a reply that prints such a list amid prose or in a fence leads to a completed run in which no step is skipped |
| Ranking.RankIsRanking | backend/app/modules/rag/vectorstore.py:156 | the stable descending sort lists every position once, by score and then by position |
| Ranking.RankingPrefixIsTopK | backend/app/modules/rag/vectorstore.py:156-157 | its first k positions are an exact top-k |
| Ranking.TopKScoresAgree | backend/app/modules/rag/vectorstore.py:89-102 | two exact top-k answers have equal scores at every rank |
| Ranking.TopKDiffersOnlyByTies | backend/app/modules/rag/vectorstore.py:89-102 | they differ only among tied scores |
| Ranking.RankingIsUnique | backend/app/modules/rag/retrieval.py:215 | given scores have exactly one stable ranking |
| Ranking.SameOrderSameRank | backend/app/modules/rag/retrieval.py:215 | only the order of the scores decides the ranking |
| Vectors.CauchySchwarz | backend/app/modules/rag/vectorstore.py:151-155 | the squared inner product is at most the product of the squared norms |
| Vectors.DotSelf | backend/app/modules/rag/vectorstore.py:151-155 | the squared norm is the inner product with itself |
| Vectors.CosineBounds | backend/app/modules/rag/vectorstore.py:151-155 | a cosine lies between -1 and 1 |
| Vectors.CosineIsDot | backend/app/modules/rag/vectorstore.py:14-16 | on vectors of norm one or zero the cosine is the inner product |
| Embeddings.HashingEmbedder.AddToken | backend/app/modules/rag/embeddings.py:84-87 | one token's numbers are added to every component |
| Embeddings.HashingEmbedder.EmbedTokens | backend/app/modules/rag/embeddings.py:80-89 | the summed token vectors over their norm; norm one or zero |
| Embeddings.SumIsAdditive | backend/app/modules/rag/embeddings.py:83-87 | the sum is built from the tokens' own vectors, each as often as it occurs |
| Embeddings.HashingEmbedder.Embed | backend/app/modules/rag/embeddings.py:77-78 | each text's own embedding, in order, of the right size and of norm one or zero |
| Embeddings.NormalisedIs | backend/app/modules/rag/embeddings.py:88-89 | normalising gives norm one, and zero exactly for a vector without length |
| Embeddings.NormalisedScalesBack | backend/app/modules/rag/embeddings.py:88-89 | the direction of the summed vector is kept |
| VectorStore.InMemoryVectorStore.Add | backend/app/modules/rag/vectorstore.py:143-145 | appends ids and vectors; parallel lists hold the pairs after what they held |
| VectorStore.InMemoryVectorStore.Search | backend/app/modules/rag/vectorstore.py:147-157 | the best entries by cosine, earlier entries first among equals |
| VectorStore.InMemoryVectorStore.Delete | backend/app/modules/rag/vectorstore.py:159-163 | removes exactly the named entries, keeping ids and vectors together |
| VectorStore.InMemoryVectorStore.DeleteByPrefix | backend/app/modules/rag/vectorstore.py:165-166 | removes exactly the entries whose id starts with the prefix |
| VectorStore.FAISSVectorStore.constructor | backend/app/modules/rag/vectorstore.py:50-75 | starts empty without an index file; otherwise vectors and ids are those read back, parallel exactly when the sidecar is not longer than the index |
| VectorStore.FAISSVectorStore.Add | backend/app/modules/rag/vectorstore.py:77-87 | appends to index, vectors and ids, or refuses wrong sizes and changes nothing; parallel lists stay one list |
| VectorStore.FAISSVectorStore.Search | backend/app/modules/rag/vectorstore.py:89-102 | turns the index's padded answer into the hits of an exact top-k, without vectors that have no id |
| VectorStore.FAISSVectorStore.Delete | backend/app/modules/rag/vectorstore.py:104-121 | removes exactly the named entries from ids and vectors, keeping each vector under its id across the rebuild, also when there are more ids than vectors |
| VectorStore.FAISSVectorStore.DeleteByPrefix | backend/app/modules/rag/vectorstore.py:123-124 | removes exactly the entries whose id starts with the prefix |
| VectorStore.FAISSVectorStore.Save | backend/app/modules/rag/vectorstore.py:126-132 | writes the index, then the ids; a fault leaves what was not written as it was |
| VectorStore.DeletePrefixIsExact | backend/app/modules/rag/vectorstore.py:123-124 | collecting the ids and deleting them leaves exactly the entries without the prefix, in order |
| VectorStore.WithoutSelects | backend/app/modules/rag/vectorstore.py:104-121 | deletion keeps exactly the entries not named, each unchanged and in order |
| VectorStore.SaveChangeAndReload | backend/app/modules/rag/vectorstore.py:60-132 | a complete save, any further history and a second save that may crash, then a reload: everything written restores the store, nothing written restores the first save, and in between there is one label for each vector, its own id or unknown, exactly when no saved entry was deleted |
| VectorStore.CrashAfterAdds | backend/app/modules/rag/vectorstore.py:66-75 | after a history of additions no vector is lost, every saved id keeps its place and exactly the new positions are labelled unknown |
| VectorStore.LabelsDiffer | backend/app/modules/rag/vectorstore.py:69-72 | a label is `unknown:` and the position in decimal, so different positions have different labels |
| VectorStore.CrashLabelsRightlyIff | backend/app/modules/rag/vectorstore.py:60-132 | over any history since the last complete save, a crash between the files leaves one label for each vector, its own id or unknown, exactly when none of the saved entries was deleted, for ids not used again |
| Retrieval.CrashStaysWellFormedIff | backend/app/modules/rag/vectorstore.py:66-75 | and even then the reloaded ids all parse, as retrieval needs them to, exactly when nothing was added either |
| Retrieval.CrashAfterAddMisaligns | backend/app/modules/rag/retrieval.py:158-174 | one vector added before the crash and ranking first gives a saved chunk its score |
| VectorStore.SurplusTakesNewVectors | backend/app/modules/rag/vectorstore.py:69-87 | a store reloaded with more ids than vectors files new vectors under the left-over ids first: under their own exactly when none is left over |
| VectorStore.CrashAfterDeleteMislabels | backend/app/modules/rag/vectorstore.py:104-132 | after a deletion it puts the surviving vector under the deleted id |
| VectorStore.ReplayBoth | backend/app/modules/rag/vectorstore.py:28-39 | any history of additions and deletions leaves both stores with the same list |
| VectorStore.HistoryKeepsNorms | backend/app/modules/rag/vectorstore.py:14-16 | a store only given vectors of norm one or zero holds no others |
| VectorStore.SearchesAgree | backend/app/modules/rag/vectorstore.py:89-102 | on such vectors both stores return equal scores at every rank and ids that differ only among ties |
| VectorStore.SearchBoth | backend/app/modules/rag/vectorstore.py:89-157 | two stores that hold the same answer a search alike |
| VectorStore.ReplayAndSearch | backend/app/modules/rag/vectorstore.py:77-166 | any history of vectors of norm one or zero, replayed into both stores and searched in both, gives equal scores at every rank and ids that differ only among ties |
| BM25.BM25.CountTerms | backend/app/modules/rag/retrieval.py:89-91 | each term of a document is counted once for it |
| BM25.FrequencyIsCount | backend/app/modules/rag/retrieval.py:108 | a term frequency is the number of occurrences |
| BM25.DocFrequencyIsCount | backend/app/modules/rag/retrieval.py:88-91 | a document frequency is the number of documents that contain the term |
| BM25.AverageLengthIs | backend/app/modules/rag/retrieval.py:86-87 | the average length times the number of documents is the length of all together |
| BM25.WeightIs | backend/app/modules/rag/retrieval.py:92-96 | a term in c of n documents weighs log((n + 1) / (c + 0.5)) |
| BM25.BM25.Fit | backend/app/modules/rag/retrieval.py:84-96 | average length and term weights are those of the corpus |
| BM25.BM25.ScoreOne | backend/app/modules/rag/retrieval.py:103-112 | one document's score, or a division by zero exactly when a weighted query term has a zero denominator |
| BM25.BM25.Score | backend/app/modules/rag/retrieval.py:98-114 | for any parameters, every document's score over the best one, or a division by zero |
| BM25.IdfPositive | backend/app/modules/rag/retrieval.py:92-96 | every known term has a positive weight |
| BM25.RarerTermsWeighMore | backend/app/modules/rag/retrieval.py:92-96 | for an increasing logarithm a term weighs more exactly when it occurs in fewer documents |
| BM25.RawScorePositive | backend/app/modules/rag/retrieval.py:103-112 | a raw score is positive exactly when the document contains a query term |
| BM25.RawScoreSaturates | backend/app/modules/rag/retrieval.py:107-111 | raw scores stay below k1 + 1 times the summed weights of the query terms when one is known |
| BM25.HalfSaturation | backend/app/modules/rag/retrieval.py:111 | a term that occurs as often as the norm says earns half of its most |
| BM25.NormIsLinear | backend/app/modules/rag/retrieval.py:105 | the norm is k1 at the average length, k1 * (1 - b) for an empty document, and linear between |
| BM25.RawScoreAdds | backend/app/modules/rag/retrieval.py:106-111 | a query's raw score is the sum of its words', repetitions included |
| BM25.RawScoreMonotone | backend/app/modules/rag/retrieval.py:103-111 | a document that is not longer and contains every query term at least as many times never scores less, and more when it contains some term more times |
| BM25.QueryTermRaises | backend/app/modules/rag/retrieval.py:103-111 | a query term in the place of another word raises the raw score |
| BM25.ScoreFailsIff | backend/app/modules/rag/retrieval.py:87-112 | when scoring divides by zero, for any parameters; for k1 >= 0 and 0 <= b <= 1: when no document has a token, or one lacks a known query term and k1 is 0, or b is 1 and it is empty |
| BM25.ScoreFailsWithoutTokens | backend/app/modules/rag/retrieval.py:87-105 | with the default parameters: exactly when the query has a term, there are documents and none has a token |
| BM25.ScoreCanFail | backend/app/modules/rag/retrieval.py:104-105 | one document without a token is enough |
| BM25.ScoresAreNormalised | backend/app/modules/rag/retrieval.py:98-114 | scores lie in [0, 1], are positive exactly for documents with a query term, and reach 1 exactly when there is one |
| BM25.ScoresAreMonotone | backend/app/modules/rag/retrieval.py:98-114 | the same for final scores: strictly monotone in the number of occurrences of every query term, antitone in length |
| BM25.RatiosAreKept | backend/app/modules/rag/retrieval.py:113-114 | dividing by the best score keeps the ratios |
| Retrieval.ParseInvertsVectorId | backend/app/modules/rag/retrieval.py:229-233 | parsing takes a vector id with a colon-free document part apart again |
| Retrieval.NoColonNoChunk | backend/app/modules/rag/retrieval.py:229-233 | an id without a colon names no chunk |
| Retrieval.NormalizeBounds | backend/app/modules/rag/retrieval.py:117-123 | normalised scores lie in [0, 1] and keep the order |
| Retrieval.NormalizeSpreads | backend/app/modules/rag/retrieval.py:117-123 | it is the linear map taking the lowest score to 0 and the highest to 1; equal scores all become 0 |
| Retrieval.NormalizeKeepsOrder | backend/app/modules/rag/retrieval.py:117-123 | normalised scores are strictly in the order of the scores |
| Retrieval.NormalizeAffine | backend/app/modules/rag/retrieval.py:117-123 | a positive affine rescaling changes nothing |
| Retrieval.FusedBounds | backend/app/modules/rag/retrieval.py:195-211 | with non-negative weights fused scores lie between 0 and their sum |
| Retrieval.FusionRespectsDominance | backend/app/modules/rag/retrieval.py:195-211 | a candidate at least as good in both scores never gets the lower fused score |
| Retrieval.DenseWeightAlone | backend/app/modules/rag/retrieval.py:195-215 | with only the dense weight the ranking is that of the dense scores |
| Retrieval.LexicalWeightAlone | backend/app/modules/rag/retrieval.py:195-215 | with only the lexical weight the ranking is that of the lexical scores |
| Retrieval.ScoresTradeOff | backend/app/modules/rag/retrieval.py:195-211 | between two candidates, which fused score is less: exactly when one's weighed lexical lead, on the scale of the dense scores, exceeds the other's weighed dense lead |
| Retrieval.RankingIsScaleFree | backend/app/modules/rag/retrieval.py:195-215 | rescaling the dense scores leaves fused scores and ranking as they are |
| Retrieval.RetrievalService.ParseChunkIds | backend/app/modules/rag/retrieval.py:158-160 | the chunks of the hits whose id parses, in hit order |
| Retrieval.RetrievalService.RecordScores | backend/app/modules/rag/retrieval.py:171-174 | scores are recorded by position, the last one for a chunk winning |
| Retrieval.RetrievalService.InHitOrder | backend/app/modules/rag/retrieval.py:175-191 | the candidates of the scored chunks, in hit order |
| Retrieval.RetrievalService.Gather | backend/app/modules/rag/retrieval.py:158-191 | the candidates are the caller's chunks among the hits, with the recorded scores |
| Retrieval.RetrievalService.LexicalScores | backend/app/modules/rag/retrieval.py:196-198 | lexical scores are those of the candidates' own texts; they fail exactly when the query has words and no text has any |
| Retrieval.RetrievalService.BestAreScoredByTheirText | backend/app/modules/rag/retrieval.py:196-215 | every returned hit's lexical score is positive exactly when its own text contains a word of the query |
| Retrieval.RetrievalService.FuseAndRank | backend/app/modules/rag/retrieval.py:158-226 | given the hits, fails exactly when the query has words, there are candidates and no candidate's text has any; otherwise returns as many candidates as asked for, best fused score first, each lexically scored by its own text |
| Retrieval.RetrievalService.Retrieve | backend/app/modules/rag/retrieval.py:152-226 | asks the in-memory store for top_k times the oversampling, an exact top-k by cosine, and answers from its hits |
| Retrieval.RetrievalService.RetrieveFromIndex | backend/app/modules/rag/retrieval.py:152-226 | the same over the FAISS store, an exact top-k by inner product, whatever ids it has |
| Retrieval.AlignedIff | backend/app/modules/rag/retrieval.py:158-174 | scores meet the right chunks exactly when no unparsable id precedes a parsable one |
| Retrieval.MisalignedScore | backend/app/modules/rag/retrieval.py:173-174 | one unparsable id gives the next chunk its score |
| Retrieval.CandidatesAreTheUsersHits | backend/app/modules/rag/retrieval.py:158-191 | with unique well-formed ids the candidates are exactly the hits on the caller's chunks, distinct, each with its own score, text and document name |
| Retrieval.BestIsTopK | backend/app/modules/rag/retrieval.py:215-218 | the result is an exact top-k of the candidates by fused score |
| Retrieval.BestComesFirst | backend/app/modules/rag/retrieval.py:215-218 | it comes best first, and nothing left out scores more |
| Retrieval.ReturnedHitsAreTheUsers | backend/app/modules/rag/retrieval.py:152-226 | returned hits are distinct chunks of the caller's documents, each with its own dense score, in non-increasing fused order |
| Retrieval.CandidatesAreComplete | backend/app/modules/rag/retrieval.py:155-191 | asking for at least as many hits as there are vectors makes all the caller's indexed chunks candidates |
| Retrieval.ResultIsTrueTopK | backend/app/modules/rag/retrieval.py:152-226 | when top_k times the oversampling is at least the number of stored vectors, the result is the true fused top-k of all the caller's indexed chunks |
| Loaders.DOCXDocumentLoader.Load | backend/app/modules/rag/loaders.py:98-129 | one unit for each section with lines, in order |
| Loaders.SectionsHoldTheBody | backend/app/modules/rag/loaders.py:101-120 | the sections hold exactly the non-blank body paragraphs, in order, under their nearest heading |
| Loaders.OneSectionPerHeading | backend/app/modules/rag/loaders.py:101-120 | there is one section before the first heading and one for each heading, in order |
| Loaders.IsHeadingIff | backend/app/modules/rag/loaders.py:113-114 | a paragraph is a heading exactly when its style name begins with heading in any capitalisation |
| Loaders.JoinIsTrim | backend/app/modules/rag/loaders.py:123-125 | stripping a section's text removes nothing, and it is empty exactly without lines |
| Loaders.UnitsKeepEveryLine | backend/app/modules/rag/loaders.py:122-129 | exactly the sections with lines become units, in order |
| Chunking.ChunkManager.AddUnit | backend/app/modules/rag/chunking.py:43-65 | one unit's non-blank pieces are appended and numbered on |
| Chunking.ChunkManager.ChunkDocument | backend/app/modules/rag/chunking.py:39-66 | the chunks are the units' non-blank pieces in order, numbered from 0, with their unit's page and heading |
| Chunking.ContentsAreThePieces | backend/app/modules/rag/chunking.py:48-51 | the chunks' texts are the non-blank pieces, stripped, each once and in order |
| Chunking.IndicesAreUnique | backend/app/modules/rag/models.py:64 | no two chunks of a document share an index |
| Chunking.SourcesAreTheTexts | backend/app/modules/rag/chunking.py:42-66 | over all units, the texts are all non-blank pieces of all units, each once, unit by unit and piece by piece |
| Chunking.ChunksAreThePieces | backend/app/modules/rag/chunking.py:39-66 | from DOCX paragraphs to chunks, for any splitter: the chunks are the non-blank pieces of the sections with lines, each once and in order, under their heading, without a page, and numbered from 0 |
| Chunking.ChunksCarryTheirUnit | backend/app/modules/rag/chunking.py:42-66 | for any units, PDF pages included: the chunks are the units' non-blank pieces, each once and in order, with their unit's page, heading and source |
| Ingestion.IngestionService.AddRows | backend/app/modules/rag/services.py:115-133 | one chunk row and one embedding row for each chunk, in a transaction |
| Ingestion.IngestionService.RunPipeline | backend/app/modules/rag/services.py:100-139 | rows are committed together or not at all; vectors once added stay |
| Ingestion.IngestionService.CleanUp | backend/app/modules/rag/services.py:141-150 | vectors are purged first, then the status changes, each step possibly failing |
| Ingestion.IngestionService.Fill | backend/app/modules/rag/services.py:91-95 | the pipeline, cleaned up after when it raises |
| Ingestion.IngestionService.CreateAndFill | backend/app/modules/rag/services.py:77-95 | the document is created, filled, and cleaned up after a failure |
| Ingestion.IngestionService.IngestUpload | backend/app/modules/rag/services.py:67-98 | refuses missing and unready uploads; returns normally exactly when nothing failed, then with the store saved |
| Ingestion.IngestionService.DeleteDocument | backend/app/modules/rag/services.py:183-194 | refuses documents the user does not own; otherwise purges the vectors and then removes the rows |
| IngestionSafety.PrefixIffSameDocument | backend/app/modules/rag/services.py:133-142 | a document's prefix matches exactly that document's vector ids |
| IngestionSafety.PurgeMatchesRows | backend/app/modules/rag/services.py:142 | purging by prefix removes exactly the vectors of the document's rows and keeps the rest aligned and in order |
| IngestionSafety.VectorsBelongToReadyDocuments | backend/app/modules/rag/services.py:114-137 | every stored vector belongs to a committed chunk row of a READY document |
| IngestionSafety.UnreadyDocumentsOwnNothing | backend/app/modules/rag/services.py:7-8 | documents that are not READY own no vectors, PROCESSING ones own no rows, and FAILED ones own rows only when an ingestion failed after its own commit |
| IngestionSafety.NothingPurgedIsOneToOne | backend/app/modules/rag/models.py:6-8 | chunk rows, embedding rows and vectors correspond one to one, in order |
| IngestionSafety.RollbackLeavesVectors | backend/app/modules/rag/services.py:134-137 | a pipeline that fails at its commit leaves no rows, but all its vectors, until the clean-up |
| IngestionSafety.FailedIngestionLeavesNoVectors | backend/app/modules/rag/services.py:91-95 | an ingestion that fails before its commit leaves the vectors exactly as they were |
| IngestionSafety.SuccessStoresEveryChunk | backend/app/modules/rag/services.py:67-139 | a successful ingestion stores every chunk with its own vector and id, in order, makes the document READY and changes nothing else |
| IngestionSafety.FreshChunksAreNumberedApart | backend/app/modules/rag/models.py:64 | the chunks the chunk manager returns for a document satisfy the uniqueness constraint on its indices |
| IngestionSafety.IngestKeepsConsistent | backend/app/modules/rag/services.py:67-150 | every ingestion keeps the invariant, wherever it fails |
| IngestionSafety.IngestIsSafeIff | backend/app/modules/rag/services.py:137-150 | an ingestion leaves a FAILED document with rows exactly when re-reading the committed document fails and the clean-up succeeds on a document with chunks |
| IngestionSafety.StrandedIff | backend/app/modules/rag/services.py:137-194 | over any run a FAILED document owns rows exactly when an ingestion left them so and no deletion of it succeeded since |
| IngestionSafety.MarkedFailedIff | backend/app/modules/rag/services.py:67-150 | a raised ingestion leaves its document FAILED, READY or PROCESSING: FAILED exactly when neither the first re-read, nor the final save after a commit, nor the clean-up was what failed |
| IngestionSafety.StatusIff | backend/app/modules/rag/services.py:67-194 | over any run a document has a status exactly when its ingestion left it so and no deletion of it succeeded since |
| IngestionSafety.RaisedNotFailedIff | backend/app/modules/rag/services.py:67-194 | over any run a document whose ingestion raised stays READY or PROCESSING until deleted, exactly when the fault left it so |
| IngestionSafety.DeleteKeepsConsistent | backend/app/modules/rag/services.py:183-194 | a deletion keeps the invariant; failing half-way it only loses that document's vectors |
| IngestionSafety.DeleteRemovesOneDocument | backend/app/modules/rag/services.py:183-194 | a deletion removes one document with its chunk rows, embedding rows and vectors, and nothing of any other |
| IngestionSafety.ForeignDeleteChangesNothing | backend/app/modules/rag/services.py:186-188 | a deletion of another user's document changes nothing |
| IngestionSafety.RunsStayConsistent | backend/app/modules/rag/services.py:67-194 | the invariant holds in every reachable state, whatever failed before; one to one when no deletion failed and no document could not be re-read |
| IngestionSafety.EveryReachableState | backend/app/modules/rag/services.py:67-194 | in every reachable state each stored vector belongs to a committed chunk row of a READY document, other documents own no vectors, and PROCESSING ones no rows |
| IngestionSafety.StoredIdsAreWellFormed | backend/app/modules/rag/services.py:133 | stored ids parse back to distinct chunks |
| Answering.AnswersAreOwn | backend/app/modules/rag/retrieval.py:152-226 | in every state of a run a query is answered only with chunks of the caller's READY documents, each with its own vector's score, no chunk twice, best fused score first |
| Answering.OwnChunksAreCandidates | backend/app/modules/rag/retrieval.py:155-191 | in a run in which no deletion failed and no document could not be re-read, every chunk of the caller's documents is a candidate with its own score, when as many hits are asked for as there are vectors |
| AuthService.SessionRepository.GetByRefreshTokenHash | backend/app/modules/auth/repositories.py:32-36 | finds the session with the hash |
| AuthService.SessionRepository.Revoke | backend/app/modules/auth/repositories.py:49-51 | sets the revocation time of one row |
| AuthService.SessionRepository.RevokeAllForUser | backend/app/modules/auth/repositories.py:53-62 | revokes exactly the user's unrevoked sessions and returns how many there were |
| AuthService.AuthService.IssueTokenPair | backend/app/modules/auth/services.py:162-193 | stores a new unrevoked session with the configured lifetime |
| AuthService.AuthService.RegisterUser | backend/app/modules/auth/services.py:51-77 | refuses a known address and changes nothing, else adds an account and a session in one step |
| AuthService.AuthService.LoginUser | backend/app/modules/auth/services.py:79-95 | refuses unknown addresses, wrong passwords and disabled accounts, else adds a session |
| AuthService.AuthService.RefreshToken | backend/app/modules/auth/services.py:97-127 | refuses, revokes every session of the user on reuse, or rotates the session |
| AuthService.AuthService.LogoutSession | backend/app/modules/auth/services.py:129-135 | revokes the presented session unless it is unknown or already revoked |
| AuthService.AuthService.LogoutEverywhere | backend/app/modules/auth/services.py:137-141 | revokes all sessions of the user and returns how many were unrevoked |
| Sessions.RegisterAcceptedIff | backend/app/modules/auth/services.py:60-77 | accepted exactly for a new address, and creates an active account with it |
| Sessions.LoginAcceptedIff | backend/app/modules/auth/services.py:87-95 | accepted exactly for an active account whose password verifies, and for that account |
| Sessions.LoginRefusals | backend/app/modules/auth/services.py:87-92 | bad credentials for an unknown address or a wrong password, else a disabled account |
| Sessions.RefreshAcceptedIff | backend/app/modules/auth/services.py:104-127 | accepted exactly for an unrevoked, unexpired session of an active user |
| Sessions.RefreshRotates | backend/app/modules/auth/services.py:123-127 | an accepted refresh revokes the presented session alone and gives its user one new session in the same chain |
| Sessions.RefusedRefreshChangesNothing | backend/app/modules/auth/services.py:104-121 | a refused refresh changes nothing unless it reuses a revoked token |
| Sessions.RefreshRefusals | backend/app/modules/auth/services.py:107-121 | a refused token has expired when nothing else is wrong with it, else it is invalid |
| Sessions.StepKeepsGood | backend/app/modules/auth/services.py:51-141 | every use-case keeps hashes distinct, chains well formed and all but their last sessions revoked |
| Sessions.RunsExtend | backend/app/modules/auth/repositories.py:49-62 | over any run no row is lost or altered and revoked_at is written at most once |
| Sessions.RedeemedAtMostOnce | backend/app/modules/auth/services.py:115-127 | over any run a refresh token is redeemed at most once |
| Sessions.RedeemedBeforeExpiry | backend/app/modules/auth/services.py:120-121 | over any run a token is redeemed only before its lifetime from issue has passed |
| Sessions.ChainsHaveOneActiveSession | backend/app/modules/auth/services.py:123-127 | in every reachable state all sessions of a rotation chain but the last are revoked |
| Sessions.ReuseRevokesTheFamily | backend/app/modules/auth/services.py:115-119 | presenting a revoked token revokes all of that user's sessions and no one else's |
| Sessions.NothingRedeemedAfterReuse | backend/app/modules/auth/services.py:115-119 | after that, no token issued to the user before is ever redeemed |
| Sessions.RevokedIffEnded | backend/app/modules/auth/services.py:97-141 | one step revokes a session exactly when it redeems it, logs it out, logs its user out everywhere, or reuses a revoked token of its active user |
| Sessions.UnrevokedIffNeverEnded | backend/app/modules/auth/services.py:97-141 | over any run a session stays unrevoked exactly until such a step |
| Sessions.AcceptedIffNeverEnded | backend/app/modules/auth/services.py:97-141 | over any run a token is accepted exactly when its user is active, its lifetime has not passed and no such step has occurred since its issue |
| Sessions.IssuingAddsOne | backend/app/modules/auth/services.py:51-95 | an accepted register or login adds one unrevoked session to its user; nobody else's number changes |
| Sessions.RefreshKeepsTheCount | backend/app/modules/auth/services.py:97-127 | a refresh, accepted or refused, keeps every user's number of unrevoked sessions, except that reuse leaves the user none |
| Sessions.LogoutRemovesAtMostOne | backend/app/modules/auth/services.py:129-135 | logout removes the presented session if it was unrevoked, and no other |
| Sessions.LogoutAllLeavesNone | backend/app/modules/auth/services.py:137-141 | logout-all leaves the user none, reports how many there were, and changes nobody else's number |
| Sessions.ActiveIsCount | backend/app/modules/auth/repositories.py:53-62 | the number of a user's unrevoked sessions is the number of such rows |

## Left out

- Executor.Executor.Invoke: results are values, so overwriting the fields of a result object that a tool shares between calls is not captured.
- Executor.Executor.Execute: concurrent scheduling of a wave is not in the code either; wall-clock timeouts are one way for a call to raise, and the thread that keeps running after one is not modelled.
- JsonScan.ExtractJson: a parser that fails with something other than a decoding error (recursion too deep) would raise through the planner; here parsing either succeeds or not.
- Planner.Planner.Plan: the prompt text built from the registry is not modelled.
- Trace.AgentMemory.Remember: stated through `Trace.Put`, which `Trace.PutNewAppends` and `Trace.PutKnownOverwrites` describe.
- Retrieval.RetrievalService.Retrieve: what the query rewriter makes of the query is an input and the embedder any function; the reranker port, wired to nothing, and citation snippets are absent; a negative top_k, which the API rejects, is not modelled.
- Retrieval.RetrievalService.RetrieveFromIndex: the index's answer, a library's, is an input.
- BM25.BM25.Score: floating-point rounding.
- BM25.ScoresAreNormalised: assumes k1 > 0 and 0 <= b < 1, as the defaults and every use have it, and so do `BM25.ScoresAreMonotone` and the bounds on raw scores.
- Ingestion.IngestionService.IngestUpload: a restart of the process (reloading the store from its files) is not an action of a run; the files are covered by the `VectorStore` lemmas. A failing save leaves the index file as it was.
- Embeddings.HashingEmbedder.EmbedTokens: the tokenizer and the seeded generator are parameters.
- VectorStore.FAISSVectorStore.Add: conversion to 32-bit floats is not modelled.
- VectorStore.FAISSVectorStore.Save: each file is written whole or not at all; a crash while one is being written is not modelled.
- AuthService.AuthService.RegisterUser: two registrations of one address at the same time, which the unique index catches, do not occur between atomic steps.
- Vector stores and ingestion: thread interleaving of requests, since nothing in the code locks.
- Access tokens (signed JWTs), password hashing and token randomness: libraries.
- Uploads, object storage, HTTP routers, settings, migrations and the Gemini client: plumbing.
- PDF and plain-text loaders, text splitters, loader dispatch: library calls and a simple dispatch.
- Listing tools by role for the prompt, `observations`, token estimates and snippets: easy members.
- Timestamps of trace events.
