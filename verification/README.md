# Verification of the repository graph, its index, the sub-orchestrator, the run store, compaction and chunking

This project models five parts of the repository in Dafny and proves what they promise.

**Repository graph** (`RepoTypes`, `GraphParts`, `GraphBuilder`, `GraphMeaning`, `BuildTheorems`, `GraphRefresh`,
`RefreshTheorems`, `GraphLoad`, `Freshness`). A repository is a finite map from paths to parsed files. `GraphMeaning`
says, independently of any builder, which nodes and edges such a map denotes; the full build is proved to hold exactly
those, and the incremental refresh is proved to hold exactly those if and only if a condition on definition counts per
mentioned name holds. The condition can be evaluated from the old and new files before the refresh. Two lemmas give
concrete inputs on which the refresh differs, one in each direction. `Freshness` keeps the stored graph beside a
changing working tree, as a class with a clock, modification times, file sizes, the dirty set and what the index
remembers.

**Index** (`RepoIndex`, `StreamingBuild`, `IndexQueries`, `GraphWalks`, `Neighbourhood`, `DepPath`). The sink is a class
with the primary and secondary tables as fields. Queries and searches are proved against sets of rows and against
undirected distance, first for the graph and then for the index, so that both give the same answers.

**Sub-orchestrator** (`Workers`, `ConcurrentPhase`, `WorkerDispatch`, `OrchestratorRun`). The concurrent phase is a loop
of nondeterministic steps over explicit places (spawned, asked, settled, joined); model replies are arbitrary. The trace
holds what an observer sees: a request together with the event that announces it, labelled with the subtask it is made
for, and the event that settles a subtask.

**Run store** (`RunAccounting`, `RunStore`, `TokenLock`). `RunStore` updates one file of a run at a time; `RunAccounting`
states what each operation does to the files of a run and that summary and scorecard equal a rescan of the log.
`TokenLock` is the interleaving model of the token summary under the lock of a directory.

**Compaction and chunking** (`Utf8`, `CompactText`, `CompactJson`, `Text`, `Chunker`). Text to be compacted is a sequence
of bytes, valid as sections 3 and 4 of RFC 3629 define; text to be chunked is a sequence of characters measured in UTF-8
bytes.

`Prelude` holds the sequence and sum facts shared by all of them.

## Hypotheses

- The parsers are foreign: a file is given as the imports, symbols and calls, or the mentions, that they report.
- Node ids are a datatype, so an id determines its kind, its path and, for symbols and modules, its name.
- `ClashFree` says that the edge hash separates the keys of the edges in play. It is a hypothesis of every result that
  needs it.
- Modification times never exceed the clock, and the clock does not go back.
- A process that does not run in the root finds no file at a path relative to where it runs, so a load and a status there
  never see that a file exceeds the size budget. One that runs in the root does. A build and a patch always do.
- A build and a patch judge the names on the whole path, a load and a status those below the root. `Rules.buried` says
  that some directory above the root bears a name that is skipped, in which case a build and a patch find nothing.
- In `Freshness` a build and a patch see the same files. A patch also reads a requested file in a working tree nested in
  the root, which the walk of a build leaves out; `RefreshedAgainstWalk` says what that does to a refresh.
- Run ids are drawn afresh, and reads and writes of files succeed.

## Findings

- `RefreshCanLose`, `RefreshCanInvent`: a refresh can differ from a rebuild, by the two cases given;
  `RefreshEqualsRebuild` says exactly when it does. `RefreshedAgainstWalk`: it also differs, exactly then, if a file
  that the walk leaves out is patched, as in a nested working tree (`NestedPatchDiffers`).
- `BuildCounts`: a build that is given a symbol twice reports more symbols than it holds (`MiscountExample`). The
  streaming build does not.
- `Edit`: a new file, or an edit in the same instant as the build, is noticed only if it is marked dirty
  (`NewFileMissed`, `SameInstantMissed`). Seen from the root an edit that takes a file over the size budget cannot be
  marked, is noticed only if the file was dirty before, and what the loaded graph says of other files can be wrong then (`OutgrownMissed`).
- `RebuildIndex`: the graph and the index share one dirty set, and an index built on its own empties it, so a change that
  was marked dirty can leave the graph reported fresh and wrong (`IndexForgets`); the contract says exactly when.
- `DocumentRowsDistinct`: document links are told apart by ids that their rows do not show, so equal rows occur
  (`DocumentRowsRepeat`); the lemma and `DocumentRowsDistinctIn` say exactly when.
- `NoteAccounted`: a note of kind `agent-event` whose payload reads as a counted event puts the bookkeeping out of step
  (`NoteMiscounts`).
- `SharedLockNeeded`: stores that resolve one directory to different lock keys, as can happen when the directory does not
  exist yet, can lose an addition.
- The comment before `dispatch_parallel` says that sequential workers receive the output of the parallel phase. The code
  also gives each the outputs of the sequential workers before it; the model follows the code.
- `CompactedGrows`: a compacted text can come back longer than it was, cut by bytes or by lines (`LongerByBytes`,
  `LongerByLines`); the lemma says exactly when. The comment in the line branch promises no more than that the result is
  not larger than intended, which `CompactedFits` puts at both halves and the marker.

## Model

| member | source | states |
|---|---|---|
| `GraphBuilder.Build` | crates/core/src/repo_graph.rs:192-358 | the loops that push nodes, edges and pending references yield exactly the deduplicated pushed lists, with the running counts, for any order in which the walk lists the files |
| `BuildTheorems.BuildMirrors` | crates/core/src/repo_graph.rs:192-358 | a build holds exactly the nodes the files declare and exactly the edges they denote (a reference reaches every definition of its name unless there are more than the cap), and is well formed: ids unique, edges unique, endpoints present, each edge in the file of its source |
| `BuildTheorems.BuildDescribes` | crates/core/src/repo_graph.rs:205-330 | every node of a build shows what was reported of its file: a file or document the last component of its path and its language, a symbol the name, kind, line and signature of one reported symbol, a module the name of an import |
| `BuildTheorems.BuildCounts` | crates/core/src/repo_graph.rs:192-358 | the counts a build reports are those of its distinct nodes and edges if and only if no symbol id was pushed twice; only the symbol count can differ, and only upwards |
| `BuildTheorems.RepeatedSymbolMiscounts` | crates/core/src/repo_graph.rs:253-300 | a build of any files one of which reports two symbols of one name and line counts more symbols than the graph holds |
| `BuildTheorems.MiscountExample` | crates/core/src/repo_graph.rs:253-300 | a concrete case: one file that reports one function twice |
| `GraphBuilder.DedupeNodes` | crates/core/src/repo_graph.rs:1178-1185 | deduplication keeps the first node of each id, in order |
| `GraphBuilder.DedupeEdges` | crates/core/src/repo_graph.rs:1187-1198 | deduplication keeps the first of equal edges, in order |
| `GraphMeaning.IndexedTotal` | crates/core/src/repo_graph.rs:1251-1262 | the symbol index holds a name exactly as often as the listed files define it |
| `GraphRefresh.SplitEdges` | crates/core/src/repo_graph.rs:680-720 | old edges are sorted into those that stay and the calls and document links to be bound again |
| `GraphRefresh.Patch` | crates/core/src/repo_graph.rs:636-821 | removing, pushing, rebinding and deduplicating yields exactly the patched lists, with recalculated counts |
| `GraphRefresh.PatchFile` | crates/core/src/repo_graph.rs:1324-1439 | a requested file that is still there contributes what a build would push for it, and keeps the index in step |
| `RefreshTheorems.PatchedEdgeMember` | crates/core/src/repo_graph.rs:675-792 | which edges a patch holds, reference by reference: a call from a file left alone is bound again exactly when it was bound and one of its definitions lived in a requested file |
| `RefreshTheorems.PatchKeepsWellFormed` | crates/core/src/repo_graph.rs:722-796 | a patch of a well-formed graph is well formed, whatever the files now say |
| `RefreshTheorems.RefreshEqualsRebuild` | crates/core/src/repo_graph.rs:636-821 | a refreshed graph says what a full rebuild says if and only if, for every mentioned name, the definition counts in kept, removed and added files pass the cap tests stated per name; the two halves (nothing invented, nothing lost) are each exact |
| `RefreshTheorems.RefreshedNodes` | crates/core/src/repo_graph.rs:636-821 | the nodes of a refreshed graph are always those the files it was given declare, apart from modules nothing imports any more |
| `RefreshTheorems.RefreshDescribes` | crates/core/src/repo_graph.rs:636-821 | after a refresh the same of the new files, except that a module may show what the old files said |
| `RefreshTheorems.RefreshedAgainstWalk` | crates/core/src/repo_graph.rs:1441-1468 | a patch reads every requested file, a build only those its walk finds: a refresh has the nodes of such a build if and only if the walk misses no requested file, and agrees with it if and only if besides nothing is invented or lost |
| `RefreshTheorems.RefreshNeverInvents` | crates/core/src/repo_graph.rs:675-792 | while every mentioned name stays within the cap after the change, every refreshed edge is an edge of the rebuild |
| `RefreshTheorems.RefreshMirrors` | crates/core/src/repo_graph.rs:636-821 | within the cap before and after, and when the requested files define no newly referenced name, refresh and rebuild agree |
| `RefreshTheorems.MirrorsAgree` | crates/core/src/repo_graph.rs:636-821 | two graphs that mirror the same files have the same edges, and differ in nodes only by modules no edge touches |
| `RefreshTheorems.RefreshCanLose` | crates/core/src/repo_graph.rs:680-720 | a concrete case in which every refresh of every graph that mirrors the old files lacks an edge of the rebuild: a file starts to define a name another file already calls |
| `RefreshTheorems.RefreshCanInvent` | crates/core/src/repo_graph.rs:1239-1249 | a concrete case in which every such refresh keeps an edge the rebuild drops: a patched file pushes a name over the cap |
| `RefreshTheorems.NestedPatchDiffers` | crates/core/src/repo_graph.rs:1441-1468 | a concrete case: a patch that is asked for a file in a nested working tree adds it, and a build that walks the tree does not |
| `GraphLoad.SanitizedEdges` | crates/core/src/repo_graph.rs:1135-1176 | unless no path is skipped, sanitising keeps exactly the edges both of whose nodes are there and tracked, also of a stored graph in which edges lack nodes |
| `GraphLoad.SanitizedEdgesTracked` | crates/core/src/repo_graph.rs:1135-1176 | of a well-formed graph it keeps exactly the edges between tracked nodes, whether or not a path is skipped |
| `GraphLoad.SanitizedNodes` | crates/core/src/repo_graph.rs:1135-1176 | when a path is skipped, exactly the tracked nodes stay that have a path or that an edge still touches; else nothing changes |
| `GraphLoad.SanitizeKeepsWellFormed` | crates/core/src/repo_graph.rs:1135-1176 | a loaded graph is well formed if and only if a path was skipped or the stored one was well formed; the stored one may lack nodes |
| `GraphLoad.SanitizeCloses` | crates/core/src/repo_graph.rs:1135-1176 | for any stored graph whatever, every loaded edge has its nodes if and only if a path was skipped or every stored edge had them |
| `GraphLoad.SanitizeRepairs` | crates/core/src/repo_graph.rs:1135-1176 | for any stored graph of which a path is skipped, no loaded edge lacks a node, every loaded node has a path or an edge, and the counts are those of what is left |
| `GraphLoad.SanitizeIdempotent` | crates/core/src/repo_graph.rs:1135-1176 | a second load changes nothing, whatever graph was stored |
| `GraphLoad.RefreshRun` | crates/core/src/repo_graph.rs:636-821 | along any run of refreshes, each of the sanitised stored graph, in which every file is tracked and no mentioned name invents or loses an edge, the stored graph says what a rebuild of the current files would say |
| `GraphLoad.RefreshGraphForPaths` | crates/core/src/repo_graph.rs:636-659 | no request, no stored graph or one over the load budget means a full build, else a patch of the sanitised graph; the result is well formed either way |
| `RepoIndex.RepoIndexSink.InsertNode` | crates/core/src/repo_index.rs:98-123 | a node is stored in any case; the secondary tables learn of it only if its id is new |
| `RepoIndex.RepoIndexSink.InsertEdge` | crates/core/src/repo_index.rs:125-149 | the same for an edge and its hash |
| `RepoIndex.InsertNodeInverse` | crates/core/src/repo_index.rs:98-123 | an insertion keeps every secondary table the exact inverse image of the node table if and only if the node is filed like the one it replaces |
| `RepoIndex.InsertEdgeInverse` | crates/core/src/repo_index.rs:125-149 | the same for edges: if and only if it joins the same ends in the same file as the edge it replaces |
| `RepoIndex.InsertionsInverse` | crates/core/src/repo_index.rs:98-149 | after any sequence of insertions in which ids determine what is filed, each secondary table is the inverse image of its primary one |
| `RepoIndex.KeyFaithful` | crates/core/src/repo_index.rs:231-241 | the key the edge hash is taken of tells apart all edges of the shape the builders give them |
| `RepoIndex.SaveIndex` | crates/core/src/repo_index.rs:243-254 | saving a well-formed graph yields an index that holds exactly its nodes and edges, provided the hash has no collision among them |
| `StreamingBuild.BuildAndSaveIndex` | crates/core/src/repo_graph.rs:435-616 | the streaming build performs exactly the stated sequence of insertions and counts the new ids |
| `StreamingBuild.CountsExactly` | crates/core/src/repo_graph.rs:618-634 | over any sequence of insertions the running counts equal the counts of the distinct nodes and edges, even when the parser repeats symbols or imports |
| `StreamingBuild.StreamDescribes` | crates/core/src/repo_graph.rs:435-616 | every node the streaming build stores shows what was reported of its file |
| `StreamingBuild.StreamingEqualsBatch` | crates/core/src/repo_graph.rs:435-616 | the streaming build writes the node ids and the edges of the batch build, its tables are exact inverses, and its counts are those of the distinct nodes and edges |
| `IndexQueries.ScanRows` | crates/core/src/repo_graph.rs:1682-1788 | the scan for callers, callees or document links returns exactly the rows of the edges asked for: equal rows once for calls, a row for each link for documents |
| `IndexQueries.ScanColumns` | crates/core/src/repo_graph.rs:2071-2094 | column by column: a row is in the answer if and only if the graph has an edge of the kind asked for, from a node with the name and path of its source columns to one with those of its target columns, on its line, and the node at the end asked about has the name: lowered equal if exact, else somewhere within |
| `IndexQueries.DocumentRowsDistinct` | crates/core/src/repo_graph.rs:1746-1788 | the rows about documents are distinct if and only if no two links asked for come from one document and go to symbols of one name and path |
| `IndexQueries.DocumentRowsDistinctIn` | crates/core/src/repo_graph.rs:1746-1788 | told from the files and the query: if and only if no name that a document mentions, the query means and the cap lets through is defined at two lines of one file |
| `IndexQueries.DocumentRowsRepeat` | crates/core/src/repo_graph.rs:1746-1788 | a concrete case in which they repeat: two definitions of a mentioned name in one file |
| `IndexQueries.IndexSymbolLookup` | crates/core/src/repo_index.rs:330-365 | the index finds, once each, exactly the stored symbols and modules whose lowered name is the lowered query, or, if not exact, is some text, the query and some text |
| `IndexQueries.LookupRows` | crates/core/src/repo_index.rs:367-523 | following the secondary table from each target returns exactly one row for each edge asked for |
| `IndexQueries.LookupColumns` | crates/core/src/repo_index.rs:812-850 | the same for the index; to a call it adds the lines of both symbols and the file of the call, to a document link nothing |
| `IndexQueries.LookupEqualsScan` | crates/core/src/repo_index.rs:367-523 | on an index that holds a graph, whatever rows a lookup and a scan return are the same up to the columns the index adds; for documents, each as often |
| `GraphWalks.BallIsDistance` | crates/core/src/repo_graph.rs:2096-2145 | the set a bounded search computes is exactly the set of ids that some undirected walk of at most that length reaches |
| `Neighbourhood.GraphNeighbourhood` | crates/core/src/repo_graph.rs:2096-2145 | the search over all edges returns exactly the nodes there are within the distance and exactly the edges with an end strictly closer, also in a graph in which edges lack nodes |
| `Neighbourhood.GraphUsage` | crates/core/src/repo_graph.rs:1790-1807 | the same from the symbols a name means, at least one step deep |
| `Neighbourhood.BallPresent` | crates/core/src/repo_graph.rs:2096-2145 | where no edge lacks a node, every id within the distance has one |
| `Neighbourhood.UsageGraph` | crates/core/src/repo_index.rs:640-719 | the search that follows index tables and skips edges already met returns the same sets |
| `Neighbourhood.SearchesAgree` | crates/core/src/repo_index.rs:640-719 | an index that holds a graph searches the same net from the same seeds, so both searches return the same nodes and edges |
| `DepPath.DepPathBetween` | crates/core/src/repo_graph.rs:1818-1918 | for any graph, a path is found if and only if some source and some target are connected, and no walk between any source and any target is shorter; its steps chain, each a real edge one way or the other, from a source to a target, or, where a node is missing, from there; with no node missing, always from a source |
| `DepPath.WalkBack` | crates/core/src/repo_graph.rs:1818-1918 | the walk back over the recorded predecessors ends at a source after as many steps as its depth, or where an edge lacks a node |
| `Freshness.GraphStore.Edit` | crates/core/src/repo_graph.rs:823-956 | an edit is stale if and only if the path is dirty, or tracked and written after the build; a graph that covered the files still does exactly when the file, if the graph has it, still counts as tracked and the edit is stale or restores the old content |
| `Freshness.NewFileMissed` | crates/core/src/repo_graph.rs:926-956 | a concrete case: a new file leaves nothing stale, and the loaded graph is not what a rebuild gives |
| `Freshness.SameInstantMissed` | crates/core/src/repo_graph.rs:926-956 | the same for an edit in the instant of the build |
| `Freshness.OutgrownMissed` | crates/core/src/repo_filter.rs:203-221 | the same for a file that outgrows the size budget, in a process that runs in the root: a name then has fewer definitions, and a call that a rebuild resolves stays unresolved |
| `Freshness.GraphStore.Delete` | crates/core/src/repo_graph.rs:823-956 | a deletion never goes unnoticed |
| `Freshness.GraphStore.MarkDirty` | crates/core/src/repo_graph.rs:1045-1062 | exactly the paths with a name that counts, and seen from the root with a size within the budget, are added to the dirty set |
| `Freshness.GraphStore.GraphStatus` | crates/core/src/repo_graph.rs:823-924 | the whole status: a loadable graph shows how many tracked paths are newer and how many are gone, is stale if and only if the stale set is not empty, fresh if newer, gone and dirty paths come to none, stale by a little from one to two hundred, and by a lot above; one over the load budget is always stale by a lot |
| `Freshness.GraphStore.GraphStalePaths` | crates/core/src/repo_graph.rs:926-956 | at most the limit of distinct stale paths, all of them if they are fewer, and some if there are any and the limit is positive |
| `Freshness.GraphStore.FullBuild` | crates/core/src/repo_graph.rs:419-433 | a rebuild leaves nothing stale, an empty dirty set, a graph that mirrors the files, and an index that remembers exactly the files that were parsed |
| `Freshness.LeftOut` | crates/core/src/repo_filter.rs:59-90 | a file is left out of a build if and only if its name or its size does not count or the root is buried |
| `Freshness.BuriedEmpty` | crates/core/src/repo_filter.rs:59-90 | a graph that mirrors the files of a buried root has neither nodes nor edges |
| `Freshness.GraphStore.PatchStale` | crates/core/src/repo_graph.rs:636-821 | patching all stale paths patches the graph as loaded and leaves nothing stale; the result covers the files exactly when the refresh invents and loses nothing |
| `Freshness.GraphStore.Freshen` | crates/core/src/repo_graph.rs:958-1043 | which of the four things freshening does is decided by whether there is a graph, whether it is over budget, whether anything is stale and whether that is more than the limit; it never answers that staleness is unknown; afterwards nothing is stale, so a second call on a graph within budget changes nothing |
| `Freshness.GraphStore.CurrentMirrors` | crates/core/src/repo_graph.rs:958-1043 | a store that is covered with nothing stale loads a graph that says what a rebuild would say |
| `Freshness.GraphStore.RebuildIndex` | crates/core/src/repo_graph.rs:435-616 | an index built on its own remembers exactly the files that were parsed, empties the dirty set and leaves the graph; a graph that covered the files still does if and only if every dirty path is unchanged since the graph was made or still seen as stale |
| `Freshness.IndexIsStale` | crates/core/src/repo_index.rs:877-910 | the loop over the indexed paths finds an index stale if and only if something is dirty or one of its paths is gone or newer |
| `Freshness.GraphStore.FreshenIndex` | crates/core/src/repo_index.rs:877-942 | a freshened index is rebuilt if and only if it is missing, something is dirty, or one of its paths is gone or newer; it is not stale then, nothing is dirty, and the graph is covered under the same condition |
| `Freshness.IndexForgets` | crates/core/src/repo_graph.rs:435-616 | a concrete case: a new file marked dirty is covered; once an index is built nothing is stale and the loaded graph is not what a rebuild gives |
| `Freshness.PatchLeavesNothing` | crates/core/src/repo_graph.rs:1277-1289 | after a patch every tracked path is a file that is still there |
| `ConcurrentPhase.Advance` | crates/custom-agents/src/sub_orchestrator.rs:530-580 | any one possible step (spawn, refuse, ask, settle, join) keeps every subtask in exactly one place, asked at most once, settled at most once and never before it asked |
| `ConcurrentPhase.RunConcurrently` | crates/custom-agents/src/sub_orchestrator.rs:511-580 | for every completion order the outputs are a permutation of the subtasks, refused ones first in plan order, one request per admitted subtask, one result-or-blocked event per output, and every request before the event that settles its subtask |
| `Workers.RunsAloneExact` | crates/custom-agents/src/sub_orchestrator.rs:517-526 | a worker waits for the sequential phase if and only if the first spec of its name is sequential |
| `Workers.PromptTells` | crates/custom-agents/src/sub_orchestrator.rs:428-433 | the prompt ends with the description; before it, under the heading, come the name and the output of every unblocked output so far in recorded order; it is the bare description if and only if there is none |
| `WorkerDispatch.ContextGrows` | crates/custom-agents/src/sub_orchestrator.rs:584-636 | the accumulated context is the join of all unblocked outputs so far |
| `WorkerDispatch.RunSequentially` | crates/custom-agents/src/sub_orchestrator.rs:582-641 | sequential workers answer in plan order; every call is made of the persona of its worker, with a prompt that ends with the description and holds, in recorded order, the name and output of every unblocked output recorded before its own; the trace is fully determined by the outputs |
| `Workers.Execute` | crates/custom-agents/src/sub_orchestrator.rs:418-502 | a reply or a failure becomes an output with the stated token estimate |
| `WorkerDispatch.Dispatch` | crates/custom-agents/src/sub_orchestrator.rs:511-641 | parallel outputs precede sequential ones, together they answer each subtask once, and each is settled by exactly one event; over both phases every request precedes the event that settles its subtask, and every call fits, as the next row says |
| `WorkerDispatch.DispatchAsks` | crates/custom-agents/src/sub_orchestrator.rs:511-641 | every call of a dispatch is for a subtask at hand, of the persona of its worker and with twice its words announced; its prompt is the bare description unless the first spec of its worker is sequential, and then tells of every unblocked output recorded before |
| `WorkerDispatch.DispatchShows` | crates/custom-agents/src/sub_orchestrator.rs:455-500 | outputs of workers whose first spec is sequential come last; every output is shown by an event with its reason or the first 512 characters of what it says, and every such event shows an output |
| `OrchestratorRun.PlanAccepted` | crates/custom-agents/src/sub_orchestrator.rs:734-762 | a plan is accepted whole, or refused for the first worker in it that is not allowed |
| `OrchestratorRun.PlanParsed` | crates/custom-agents/src/sub_orchestrator.rs:734-768 | a planner's reply is a plan if and only if it is an array that names no worker that is not allowed; its steps become the subtasks one by one, with what is missing empty |
| `OrchestratorRun.NormalizeTopology` | crates/custom-agents/src/sub_orchestrator.rs:647-689 | with declared workers it fails if and only if the plan names an undeclared one; otherwise one subtask per spec in order, the first of a name with the planned texts joined in plan order (or the request if blank or absent), later ones with the request |
| `OrchestratorRun.TopologyTexts` | crates/custom-agents/src/sub_orchestrator.rs:673-688 | the first spec of a name is given, in plan order, all that the plan says to it, unless that is blank; then, and for any later spec of the name, the request |
| `OrchestratorRun.DrainBlocked` | crates/custom-agents/src/sub_orchestrator.rs:725-732 | blocked and unblocked outputs are separated in order and nothing is lost |
| `OrchestratorRun.Replan` | crates/custom-agents/src/sub_orchestrator.rs:210-258 | at most one more plan call, made only if something was blocked; blocked outputs give way only to a non-empty revised plan |
| `OrchestratorRun.Run` | crates/custom-agents/src/sub_orchestrator.rs:192-294 | a run starts if and only if it is not too deep, some worker is allowed, and the plan is accepted; else the failure is told by the first of these it fails; it makes one plan call, or two if something was blocked; what it reports and records is stated in full |
| `OrchestratorRun.StartsExactly` | crates/custom-agents/src/sub_orchestrator.rs:147-205 | told from the persona and the specs: a run starts if and only if the depth is below the maximum, the persona does not allow no one where no spec is declared, the planner gave an array, and every worker in it is declared or, where no spec is, in the list of the persona if that has one |
| `OrchestratorRun.ReportHolds` | crates/custom-agents/src/sub_orchestrator.rs:270-288 | but for white space at the very end the report holds the name and the output of every worker in order |
| `Text.TrimEndExact` | crates/custom-agents/src/sub_orchestrator.rs:287-288 | trimming the combined output takes off the longest blank suffix |
| `Text.SpaceTable` | crates/memory/src/indexer.rs:51-51 | white space is the twenty-five characters of the Unicode property |
| `OrchestratorRun.OnlyAllowedWorkers` | crates/custom-agents/src/sub_orchestrator.rs:147-152 | an orchestrator made from a persona asks, settles and returns outputs, in both rounds, only of declared workers, or, where none is declared, of those in the list of the persona if it has one |
| `OrchestratorRun.FirstRoundSurvives` | crates/custom-agents/src/sub_orchestrator.rs:210-258 | first-round outputs are all kept, as a multiset, unless a non-empty revised plan replaces the blocked ones |
| `RunStore.ScanRunActivity` | crates/core/src/run_store.rs:902-946 | the rescan counts retries, tool calls and tool errors, capped at the largest 32-bit number |
| `RunStore.ComputeTokenSummary` | crates/core/src/run_store.rs:948-976 | the rescan sums the tokens and requests of the logged model requests, wrapping at the width of the fields |
| `RunStore.HasModelRequestEvent` | crates/core/src/run_store.rs:658-682 | true if and only if the log holds a model request |
| `RunAccounting.EventAccounted` | crates/core/src/run_store.rs:259-266 | appending an event keeps summary and scorecard equal to a rescan of the log |
| `RunAccounting.NoteAccounted` | crates/core/src/run_store.rs:268-273 | a note does so if and only if it does not pass for an event that some count includes |
| `RunAccounting.NoteMiscounts` | crates/core/src/run_store.rs:268-273 | a concrete case: a note of kind `agent-event` that reads as a tool call puts any new run out of step |
| `RunAccounting.FinishedAccounted` | crates/core/src/run_store.rs:325-341 | finishing does, and leaves a stored summary equal to a rescan |
| `RunAccounting.FinishedTells` | crates/core/src/run_store.rs:325-341 | a finished run has the status given, its mode and provider, and the first 240 characters of the preview; its log grows if and only if it is hosted, the preview is not blank and no request was logged, and then by one request of its provider, or else its mode, for a quarter of the characters and at least one token |
| `RunAccounting.CleanedAccounted` | crates/core/src/run_store.rs:379-420 | cleaning up a stale run does, and the run is not stale any more |
| `RunAccounting.CleanedTells` | crates/core/src/run_store.rs:379-420 | a running run that never finished is failed with the fixed preview and charged by the same rule; any other is left alone |
| `RunAccounting.RunAccounted` | crates/core/src/run_store.rs:747-804 | over any run of events, honest notes, finishes, status updates, provider changes and cleanups, the summary is a rescan of the log, and the scorecard shows the mode, provider and status of the metadata, the tokens and requests of the summary, and the retries, tool calls and tool errors of the log |
| `RunAccounting.OtherNotesHonest` | crates/core/src/run_store.rs:268-273 | notes of any other kind than `agent-event` never pass for events |
| `RunAccounting.ChargedOnce` | crates/core/src/run_store.rs:632-656 | over any run of operations the log grows by the entries given to be logged and at most one more, and by none more after a request |
| `RunStore.RunStore.CreateRun` | crates/core/src/run_store.rs:230-257 | a created run is accounted for |
| `RunStore.RunStore.AppendEvent` | crates/core/src/run_store.rs:259-266 | the new state of the run, and that all runs stay accounted for |
| `RunStore.RunStore.AppendNote` | crates/core/src/run_store.rs:268-273 | the new state, and exactly when all runs stay accounted for |
| `RunStore.RunStore.FinishRunWithStatus` | crates/core/src/run_store.rs:325-341 | the new state, nothing for a run without metadata, and that all runs stay accounted for |
| `RunStore.RunStore.UpdateRunStatus` | crates/core/src/run_store.rs:343-359 | the new state, and that all runs stay accounted for |
| `RunStore.RunStore.CleanUpStaleRuns` | crates/core/src/run_store.rs:379-420 | exactly the stale runs are failed and counted, whatever the order of the visit |
| `TokenLock.StepBalanced` | crates/core/src/run_store.rs:684-745 | each step of any thread keeps summary plus pending amounts equal to all that was logged or given to be added, while that total fits |
| `TokenLock.PlusAdds` | crates/core/src/run_store.rs:684-745 | a logged request is added modulo the width of the fields, a given summary up to their largest number |
| `TokenLock.StepExclusive` | crates/core/src/run_store.rs:684-745 | on one lock at most one thread is inside, and what it loaded is still what is stored |
| `TokenLock.RunSound` | crates/core/src/run_store.rs:684-745 | so does every interleaving of any number of stores |
| `TokenLock.SharedLockNeeded` | crates/core/src/run_store.rs:1107-1118 | every run that comes to rest has an exact summary if and only if all stores share one lock |
| `Utf8.Cut` | crates/etr/src/compactor.rs:155-171 | cutting valid text at a character boundary gives two valid texts (section 3 of RFC 3629) |
| `Utf8.CharsAreScalars` | crates/etr/src/compactor.rs:155-171 | the well-formed characters are exactly the encodings of the scalar values, each of one (section 3 of RFC 3629) |
| `Utf8.EncodingValid` | crates/etr/src/compactor.rs:155-171 | the encoding of any text is valid |
| `Utf8.NearBoundary` | crates/etr/src/compactor.rs:155-171 | a boundary is never more than three bytes away in either direction |
| `Utf8.TruncateStrBoundary` | crates/etr/src/compactor.rs:155-161 | the loop stops at the last boundary not past the limit |
| `Utf8.TailBoundary` | crates/etr/src/compactor.rs:165-171 | the loop stops at the first boundary not before the start |
| `Utf8.HeadFits` | crates/etr/src/compactor.rs:155-161 | what truncation keeps is a prefix at most three bytes short of the limit |
| `Utf8.TailFits` | crates/etr/src/compactor.rs:165-171 | the tail is at most three bytes short of what it may keep |
| `Utf8.DigitsRead` | crates/etr/src/compactor.rs:66-81 | the omitted count can be read back from the marker |
| `CompactText.LinesRejoin` | crates/etr/src/compactor.rs:50-50 | the pieces between line feeds, joined again, are the text but for a final line feed; the lines are the pieces without a carriage return at the end, except a last one that no line feed ends |
| `CompactText.PartsFit` | crates/etr/src/compactor.rs:45-83 | by lines: the first and last twenty lines, each clamped to half; by bytes: a prefix and a suffix that do not overlap, each within three bytes of half, and head plus stated count plus tail is the input length |
| `CompactText.CompactedFits` | crates/etr/src/compactor.rs:45-83 | the result is valid UTF-8, unchanged within the limit; else it begins with the head and ends with the tail that the branch promises, holds in between the notice with the omitted count in decimal, and is at most twice half the limit plus the marker |
| `CompactText.EndsKept` | crates/etr/src/compactor.rs:71-83 | cut by bytes the result and the text share a prefix and a suffix, each within three bytes of half, and in between the result says how many bytes are left out |
| `CompactText.CompactedGrows` | crates/etr/src/compactor.rs:45-85 | a text comes back longer than it was if and only if, by lines, the clamped ends and the marker for the lines left out exceed it, or, by bytes, fewer than twenty-eight bytes lie between the two cuts: conditions on the text and the limit alone |
| `CompactText.GrowsByLengths` | crates/etr/src/compactor.rs:71-85 | by bytes the lengths alone settle it: at most twenty-one bytes more than both halves and it grows, twenty-eight or more and it does not |
| `CompactText.GrowsByLineLengths` | crates/etr/src/compactor.rs:49-70 | by lines the same up to six bytes, three for each cut |
| `CompactText.LongerByBytes` | crates/etr/src/compactor.rs:71-85 | at every limit a line one byte longer comes back longer |
| `CompactText.LongerByLines` | crates/etr/src/compactor.rs:49-70 | at every limit over forty a text of forty-one lines and one byte more than the limit comes back twenty-five bytes longer |
| `CompactJson.ExceedsByteThreshold` | crates/etr/src/compactor.rs:131-153 | the byte counter refuses if and only if more than the limit is written, however the writes are divided |
| `CompactJson.SerializedSize` | crates/etr/src/compactor.rs:131-135 | the size of the serialisation, told from the value: quotes, escapes of two and of six bytes, colons and commas |
| `CompactJson.EscapeReads` | crates/etr/src/compactor.rs:131-135 | each byte of a string is written as itself or as an escape that reads back to it (section 7 of RFC 8259) |
| `CompactJson.CompactValue` | crates/etr/src/compactor.rs:94-122 | the recursion trims the value and sets the flag if and only if it was set or some kept string or array is over its limit |
| `CompactJson.TrimKeepsShape` | crates/etr/src/compactor.rs:94-122 | the same keys in order, the same scalars, arrays cut to a prefix of at most 200, strings over 8000 bytes cut as text is, head first and tail last, all text still valid |
| `CompactJson.TrimIdentity` | crates/etr/src/compactor.rs:94-122 | where nothing is over its limit nothing changes |
| `CompactJson.CompactJson` | crates/etr/src/compactor.rs:26-38 | a present key returns its member untouched; else the flag is set if and only if the size, counted from the value, is over 20000 bytes and something kept is over its limit, a clear flag means the input itself, and a set flag keeps the shape; however the serialisation is written out |
| `Text.WordsKeepText` | crates/memory/src/indexer.rs:51-51 | splitting at white space loses and reorders nothing else, and yields words without white space |
| `Text.WordsOfJoin` | crates/memory/src/indexer.rs:51-62 | words joined by single blanks are split into themselves again |
| `Chunker.SizeIsBytes` | crates/memory/src/indexer.rs:52-52 | the size compared with the budget is the length of the encoding of the chunk in UTF-8 |
| `Chunker.FullStaysAhead` | crates/memory/src/indexer.rs:48-66 | a split whose groups could not take the next word needs no more groups than any other split |
| `Chunker.ChunkText` | crates/memory/src/indexer.rs:48-66 | the chunks are consecutive groups of the words in order, splitting the chunks again gives the words of the text, each chunk encodes to at most the budget of bytes or is one word, and no split that meets this rule has fewer chunks |

## Left out

- Tree-sitter walks, regular expressions and the brace-counting fallback parser: foreign grammars.
- redb transactions, JSON, TOML and YAML encoding, file walking, symbolic links and path normalisation: input and
  output.
- In `Freshness`, files in nested working trees, which a patch reads and a build does not: the store has one map of files.
- Graph files that cannot be parsed, and files whose modification time cannot be read: the error paths of the freshness
  functions.
- The order of answers the source sorts, and the limits callers put on them: answers are compared without their order.
- A freshening is one step with respect to edits: an edit between the status and the patch is not modelled.
- `context_bundle_for_query` and evidence references: text ranking on top of the queries proved here.
- The system prompt of a worker (skills merged into a persona): it is part of the persona the model is given.
- Worker tasks that panic: the source drops their outputs.
- The publication of a request event and the request itself are one step of the concurrent phase.
- OrchestratorRun.Combine: the token total is unbounded, where the source adds in a machine word; the estimates of single
  outputs do saturate.
- Costs in dollars, cost modes, quality scores, timestamps, durations and workflow names of runs: floating point or
  bookkeeping without a promise.
- The input, output and cache token fields of a summary: they are only ever added to, like the token field.
- `overwrite_token_summary`, and scorecards updated by several threads at once: the source takes no lock there.
- `ensure_token_summary_artifact` among concurrent steps: between another thread's log append and its bump it counts the
  event twice.
- Token overflow: sums past 64 bits wrap, as an unchecked build of the source does.
- How numbers are printed: the literal of a number is given.
- Text rendering, token budgets, command output compaction, model routing, prompts, hooks, servers and clients: thin.
