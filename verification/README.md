# Verified models of openJiuwen's core algorithms

Dafny models of the self-contained algorithms in this repository, with proofs of what they are for. Each
module follows one source file (two where a file does two jobs); code that the source writes as loops over
mutable state is written here as methods with invariants or as classes, and tied by its postcondition to a
function about which the properties are proved.

| module | source |
|---|---|
| `SqlEval`, `SqlValues` | `examples/rl_nl2sql/sql_eval.py`: are two query results equal up to a column permutation? |
| `ShardPlan` | `tools/shardplan.py`: the greedy shard planner |
| `ShardRunner`, `ShardArchive`, `ShardRuns` | `tools/run_full_shards.py`: what the runner makes of a plan, one archive, and all its histories |
| `Markup`, `InboundRender`, `Snapshots` | `openjiuwen/agent_teams/inbound_render.py`: escaped rendering, its inverse, queue coalescing |
| `Fork`, `ForkCompact` | `openjiuwen/agent_teams/fork.py`, `fork_compact.py`: cutting a conversation |
| `TaskGraph`, `Boxed` | `examples/MANGO/utilities.py`: the task graph, brace extraction |
| `Walks` | `examples/MANGO/PolicyGradient.py`: bounded-walk expansion |
| `TeamHybrid` | `examples/multi_agent/team_hybrid.py`: the fan-out/fan-in protocol |
| `Template`, `TemplateMessages` | `openjiuwen/agent_teams/message_template.py`: single-pass placeholders, whitelisted rows |
| `Text`, `Ordering`, `Wrappers` | Python's strings, `sorted` and `Counter`, `None` |

`dafny verify dfyconfig.toml` checks the whole project.

## Where the code falls short of what it is for

The models keep the code as it is. In the places below a property one would expect holds only under a
condition; each is proved as an exact condition, with an input or a family that fails.

* **SQL comparison.** The quick reject sorts cells by `str(x) + str(type(x))`, Python's `==` compares values.
  The comparison is exact on all tables over a set of cells if and only if the keys order the values of that
  set (`ExactIffKeysOrderValues`). NULLs, integers and text pass (`ExactWithoutFloats`); integers mixed with
  floats do not: `[(1.0, 1.5)]` and `[(1.5, 1)]` are rejected although swapping columns makes them equal,
  whether order matters or not (`FloatsLoseMatch`). The verdict is an equivalence relation all the same
  (`VerdictIsEquivalence`).
* **Exit code 0.** The runner compares numbers of reported test cases, never which cases they are. A report that
  names one case twice and another never closes its shard and the run exits with 0 (`ExitZeroMissesRepeat`). The
  reported cases are the owed ones if and only if they are distinct and owed (`CountsCertifyIdentities`).
* **Forking.** The before-window leaves a dangling call exactly when the checkpoint lies strictly inside a
  block of tool results (`BeforeWindowSafe`). A conversation that is forked while a tool call is still running,
  such as the call that forks it, is inherited well-formed only up to that call or from behind it (`ForkSafe`).
* **Compaction.** With direction `before` the kept tail starts with an orphan exactly when the split index is
  at a tool result; the default direction does not trim what forking trims. The compacting fork modes capture the
  whole live conversation, in which the call that forks it may still be unanswered: then direction `before` never
  leaves a well-formed conversation, and direction `after` does so exactly up to that call
  (`HeadCompactionSafe`, `TailCompactionSafe`).
* **Team run.** `message.get` is called on whatever the team is invoked with, so only a dictionary gets past
  the direct publish: `RunEnds` gives both outcomes, `PlainFails` the failing run.
* **Task graph.** Node 1 has no list of subtasks, so the construction fails if and only if some subtask's best
  match, in the graph as it is when the subtask is reached, is node 1 (`BuildGraph`). A first subtask fails it
  exactly when it is similar enough to the target node (`FirstSubtaskStops`).

`run_shard` tests whether there is a parse error, the reconcile loop whether its text is empty. The two agree
because the text of an XML parse error always names a line and a column (`ReconcileKeeps`).

## Model

| member | source | states |
|---|---|---|
| SqlEval.MultisetEq | examples/rl_nl2sql/sql_eval.py:92-102 | the counting test with its early exit is true exactly when the two lists are equal as bags |
| SqlEval.Inverse | examples/rl_nl2sql/sql_eval.py:142-148 | every column permutation has an inverse on both sides, the reason the comparison is symmetric |
| SqlEval.PermuteKeepsBag | examples/rl_nl2sql/sql_eval.py:148 | permuting a row keeps its bag of cells |
| SqlEval.ProductComplete | examples/rl_nl2sql/sql_eval.py:110-120 | the product holds exactly the choices of one allowed column per position |
| SqlEval.Discard | examples/rl_nl2sql/sql_eval.py:115-119 | one sampled row drops exactly the column choices it rules out, in both nested loops |
| SqlEval.ConstraintPermutations | examples/rl_nl2sql/sql_eval.py:105-120 | whichever rows are sampled, no permutation whose columns fit the first result is pruned |
| SqlEval.MatchFits | examples/rl_nl2sql/sql_eval.py:116-119 | a permutation that makes the results equal sends each column to one whose values fit |
| SqlEval.TryPermutation | examples/rl_nl2sql/sql_eval.py:142-155 | one turn of the search accepts exactly the permutations that make the results equal, the one-column shortcut and the set test included |
| SqlEval.SearchPermutations | examples/rl_nl2sql/sql_eval.py:139-156 | the pruned search finds a permutation exactly when one exists |
| SqlEval.ResultsEquivalent | examples/rl_nl2sql/sql_eval.py:123-156 | for every sampling, the answer is "equal up to a column permutation, and the same rows once each is sorted by its keys", the latter place by place or as sets, nothing else |
| SqlEval.VerdictMeans | examples/rl_nl2sql/sql_eval.py:75-89 | the quick reject passes exactly the results whose rows agree when a stable sort by text and type arranges each, in either mode |
| SqlEval.VerdictIsEquivalence | examples/rl_nl2sql/sql_eval.py:123-156 | the verdict is reflexive, symmetric and transitive, and ordered agreement implies agreement as bags |
| SqlEval.UnorderRowCanonical | examples/rl_nl2sql/sql_eval.py:75-76 | rows with equal bags of values sort to the same row, when keys order values |
| SqlEval.EquivalentPasses | examples/rl_nl2sql/sql_eval.py:79-89 | the quick reject loses no match, when keys order values |
| SqlEval.ExactIffKeysOrderValues | examples/rl_nl2sql/sql_eval.py:75-156 | in either mode the comparison equals its specification on all tables over a set of cells exactly when the sort keys of that set order its values |
| SqlEval.LostMatch | examples/rl_nl2sql/sql_eval.py:75-89 | any two values whose keys disagree give two results that are equal up to a column swap and yet rejected, in either mode |
| SqlValues.CellsMean | examples/rl_nl2sql/sql_eval.py:76 | of each kind of cell, the value and the key: its text and the text of its type |
| SqlValues.KeyInjective | examples/rl_nl2sql/sql_eval.py:76 | apart from floats, text plus type text determines the value |
| SqlValues.ExactWithoutFloats | examples/rl_nl2sql/sql_eval.py:75-156 | on NULLs, integers and text the comparison equals its specification |
| SqlValues.FloatsLoseMatch | examples/rl_nl2sql/sql_eval.py:75-89 | with `1`, `1.0` and `1.5` a match is lost, in either mode |
| ShardPlan.Choose | tools/shardplan.py:23-25 | the chosen shard is the least loaded one that fits, by id on ties, and none is chosen only when none fits |
| ShardPlan.FileMeans | tools/shardplan.py:16 | the file of a line is what stands before its first `::`, or all of it |
| ShardPlan.CountsMean | tools/shardplan.py:15-19 | a file is counted once for each line below `tests/` that has a `::` and this file in front of the first one |
| ShardPlan.TallyCounts | tools/shardplan.py:15-19 | the counter lists each file once with the number of its counted lines |
| ShardPlan.MakePlan | tools/shardplan.py:12-42 | the loops compute the plan function, which follows the greedy rule file by file; a target that is not positive is the `ValueError` |
| ShardPlan.PackFiles | tools/shardplan.py:21-30 | the packing loop computes the placement function |
| ShardPlan.PlanIsGreedy | tools/shardplan.py:20-32 | biggest file first and ties by path, each file goes into the least loaded shard with room for it, ties by id, or into a new one when none has room; at the end each shard's files are sorted |
| ShardPlan.PlanPartitions | tools/shardplan.py:20-32 | each counted file is in exactly one shard at one place, each load is the sum over its files and within the target unless the shard is one oversized file, no two shards would have fitted together, ids count up, files are sorted |
| ShardPlan.PlanTotals | tools/shardplan.py:37-39 | collected cases are the counted lines and the sum of the loads; file and shard counts are those of the partition |
| ShardPlan.PlanIgnoresLineOrder | tools/shardplan.py:15-20 | the plan depends only on the multiset of lines |
| ShardPlan.PlanOversized | tools/shardplan.py:40 | the oversized list has, once each, exactly the files above the target, biggest first and ties by path |
| ShardPlan.PlanHalfFull | tools/shardplan.py:20-30 | with two or more shards, shard count times target is below twice the collected cases |
| ShardPlan.PlanNearOptimal | tools/shardplan.py:20-30 | against every sharding within the target or of single files: at most `(3b + 1) / 2` and at most `2b` shards for its `b` |
| ShardRunner.StripKeepsFile | tools/run_full_shards.py:47 | stripping a collected line does not change its file |
| ShardRunner.CollectMeans | tools/run_full_shards.py:46-47 | the canonical node ids are the collected cases without white space at either end |
| ShardRunner.CasesMean | tools/run_full_shards.py:287 | a shard owes exactly the node ids whose file is one of its files |
| ShardRunner.SizeCheckMeansDistinct | tools/run_full_shards.py:223-225 | the size check passes exactly when no node id was collected twice |
| ShardRunner.PlannerRunnerAgree | tools/run_full_shards.py:287 | after the size check the per-shard node sets are disjoint, cover everything, and have the planned sizes |
| ShardRunner.ShardIdInjective | tools/shardplan.py:27 | numbered shard ids never collide, past 999 too |
| ShardRunner.ShardIdMeans | tools/shardplan.py:27 | an id is the decimal number, filled up with zeros to three digits |
| ShardRunner.PlanIdsDistinct | tools/run_full_shards.py:295 | the key of the results dictionary names the shards of a plan apart |
| ShardArchive.JunitCounts | tools/run_full_shards.py:25-43 | the counting loop returns the number of cases of each outcome and exactly the collection skips, in order |
| ShardArchive.CountsMean | tools/run_full_shards.py:32-42 | each count is the number of cases whose first child element, in the order failure, error, skip, is of its kind, or that have none; skips of a whole collection are told by their message and counted apart |
| ShardArchive.SkipsMean | tools/run_full_shards.py:36-39 | the collection skips are listed in report order, none left out |
| ShardArchive.TalliedCounts | tools/run_full_shards.py:31-42 | the counters are the multiplicities of the outcomes |
| ShardArchive.CountsCoverReport | tools/run_full_shards.py:31-42 | every test case of a report is counted once or is a collection skip |
| ShardArchive.ClosedShard | tools/run_full_shards.py:126-176 | a result is closed with nothing missing exactly when a clean collection found the canonical cases, all of them, and a readable report counts as many |
| ShardArchive.ResultShows | tools/run_full_shards.py:126-199 | every field of a result from what its run showed; it is closed exactly when a clean collection found canonical cases only and a readable report counts as many, so the last of the six tests of the code follows from the others |
| ShardArchive.ReconcileMeans | tools/run_full_shards.py:250-261 | reconciling an item recomputes `closed` from the archived fields and leaves every other field |
| ShardArchive.CountsCertifyIdentities | tools/run_full_shards.py:168-175 | the counted cases are the canonical ones exactly when they are distinct and canonical |
| ShardArchive.RepeatedCaseCloses | tools/run_full_shards.py:168-176 | a report naming one case twice and another never closes the shard |
| ShardArchive.ReconcileKeeps | tools/run_full_shards.py:164-176 | recomputing `closed` from a freshly archived result never changes it |
| ShardArchive.Runner.SumResults | tools/run_full_shards.py:299-303 | a sum over the results, in any order |
| ShardArchive.Runner.Aggregate | tools/run_full_shards.py:296-303 | the aggregates are the function of the results alone |
| ShardArchive.AggregatesMean | tools/run_full_shards.py:296-303 | closed means a closed result for every shard; the other three entries are sums over the results in any order |
| ShardArchive.ExitCodes | tools/run_full_shards.py:55-60 | 0 when all is closed, nothing missing, every run clean and every report readable, 1 otherwise, and a `KeyError` before the first completion |
| ShardArchive.Runner.Record | tools/run_full_shards.py:293-304 | one completion stores its result, recomputes the aggregates and saves both |
| ShardArchive.Runner.Reconcile | tools/run_full_shards.py:247-269 | reconciling is refused unless there is a result per shard; otherwise it recomputes every item and the aggregates |
| ShardRuns.RunKeepsInvariant | tools/run_full_shards.py:232-313 | across starts, completions in any order, saves, crashes, resumes and reconciliations, the archive holds exactly the results of the completions that were saved, the memory at most the latest one more, and both have aggregates equal to their recomputation |
| ShardRuns.ArchiveIsSavedRuns | tools/run_full_shards.py:270-313 | after any history, a shard has an archived result exactly when one completion of it was saved; there is only one such, and the result is what its run showed |
| ShardRuns.ExitZeroCertifies | tools/run_full_shards.py:55-60 | in any history, the process ends with exit code 0 exactly when the archive has aggregates and, for every planned shard, a saved completion of this history collected its cases and no other, reported as many and returned 0 |
| ShardRuns.GoodReports | tools/run_full_shards.py:168-176 | of a good run, the reported cases are the owed ones exactly when they are distinct and owed |
| ShardRuns.ExitZeroCertifiesPlan | tools/run_full_shards.py:223-313 | with the plan made from the log: exit code 0 means every collected id belongs to exactly one shard, for every shard a saved completion of this history collected its ids and no others and reported as many cases, and these sum to the collected ones |
| ShardRuns.GoodRunsExitZero | tools/run_full_shards.py:293-313 | a history whose shard runs are all good and whose last process leaves a result for every shard ends with exit code 0 |
| ShardRuns.OneShardExit | tools/run_full_shards.py:270-313 | a one-shard session ends with exit code 0 exactly when its run was good |
| ShardRuns.ExitZeroMissesRepeat | tools/run_full_shards.py:168-176 | a history that ends with exit code 0 although one case was never reported |
| ShardRuns.SessionRunsAsked | tools/run_full_shards.py:270-313 | after any history, a session that runs to its end completes exactly the shards it is asked for, all or those of `--only`, that have no result, each once; the archive gains their results and keeps the others |
| ShardRuns.SessionPossible | tools/run_full_shards.py:270-313 | after any history any selection of shards can be run to the end, whatever the runs show |
| ShardRuns.FullSessionCovers | tools/run_full_shards.py:273-313 | after any history, a session without `--only` that runs to its end leaves a result for every shard |
| ShardRuns.Confluence | tools/run_full_shards.py:270-304 | two histories that cover the plan with repeatable shards leave the same archive, whatever the order, crashes and selections |
| ShardRuns.ReconcileLeavesArchive | tools/run_full_shards.py:247-269 | reconciling a complete archive changes nothing in it, whatever history made it |
| ShardRuns.SavedStaysSaved | tools/run_full_shards.py:273-304 | no step loses or alters a saved result, and no session schedules its shard again |
| Markup.UnescapeEscape | openjiuwen/agent_teams/inbound_render.py:70-77 | escaping is undone by reading the entities back, for any text |
| Markup.EscapesFive | openjiuwen/agent_teams/inbound_render.py:70-77 | the entities of the five special characters, of which text keeps the quotes, and no others |
| Markup.EscapeSafe | openjiuwen/agent_teams/inbound_render.py:70-77 | escaped text has no angle bracket, escaped attributes no quote |
| Markup.ParsePrint | openjiuwen/agent_teams/inbound_render.py:91-104 | parsing a printed element gives it back, whatever follows it |
| Markup.PrintInjective | openjiuwen/agent_teams/inbound_render.py:91-104 | printing well-named elements is injective |
| InboundRender.RenderPrints | openjiuwen/agent_teams/inbound_render.py:80-271 | all five renderers print exactly one element, stated as a tree without any escaping |
| InboundRender.RecoverRender | openjiuwen/agent_teams/inbound_render.py:107-271 | from a rendered block the renderer and every field can be read back, up to absent or empty optional parts |
| InboundRender.RenderInjective | openjiuwen/agent_teams/inbound_render.py:107-271 | two blocks render alike exactly when they agree up to those parts |
| InboundRender.MemberNeverController | openjiuwen/agent_teams/inbound_render.py:140-176 | no member message, whatever its fields, renders as a controller instruction |
| Snapshots.DropSuperseded | openjiuwen/agent_teams/inbound_render.py:316-323 | the loop over `newest` keeps exactly the entries no later one supersedes |
| Snapshots.CompactMeans | openjiuwen/agent_teams/inbound_render.py:316-323 | position by position, an entry is kept exactly when it is no snapshot or no later one has its kind |
| Snapshots.CompactIsSubsequence | openjiuwen/agent_teams/inbound_render.py:305-306 | the result is a subsequence |
| Snapshots.CompactKeepsOthers | openjiuwen/agent_teams/inbound_render.py:321-323 | every non-snapshot entry is kept, in order |
| Snapshots.CompactKeepsNewest | openjiuwen/agent_teams/inbound_render.py:316-323 | of each kind exactly the newest snapshot is kept |
| Snapshots.CompactIncremental | openjiuwen/agent_teams/inbound_render.py:296-323 | drop(a + b) = drop(drop(a) + b) |
| Snapshots.CompactIdempotent | openjiuwen/agent_teams/inbound_render.py:296-323 | dropping twice is dropping once |
| Snapshots.SnapshotMeans | openjiuwen/agent_teams/inbound_render.py:274-293 | a text is a snapshot exactly when it is one task-board event with white space around it at most |
| Snapshots.SnapshotKindOfRendered | openjiuwen/agent_teams/inbound_render.py:274-293 | a rendered block is a snapshot exactly when it is a task-board event, whatever its texts |
| Snapshots.QueueKeepsMessages | openjiuwen/agent_teams/inbound_render.py:274-323 | coalescing a queue of rendered inputs keeps every message and other event, in order |
| Fork.WellFormedMeansNothingWrong | openjiuwen/agent_teams/fork.py:89-103 | the inductive well-formed conversations are those with no dangling call and no orphan result |
| Fork.StripIsExact | openjiuwen/agent_teams/fork.py:84 | stripping removes every system message and nothing else |
| Fork.StripKeepsPlace | openjiuwen/agent_teams/fork.py:84 | a message that stays keeps its place between what is left of the messages before and after it |
| Fork.TrimLeadingOrphans | openjiuwen/agent_teams/fork.py:118-128 | the loop drops exactly the leading tool results |
| Fork.CarryResults | openjiuwen/agent_teams/fork.py:109-113 | the loop carries exactly the block of results at the checkpoint |
| Fork.FromAgent | openjiuwen/agent_teams/fork.py:84-115 | everything when the checkpoint is absent or out of range; otherwise what follows the results at it, or what precedes it with the results that answer the call right before it |
| Fork.AfterWindowSafe | openjiuwen/agent_teams/fork.py:88-94 | the after-window of every in-range checkpoint is well-formed |
| Fork.BeforeWindowSafe | openjiuwen/agent_teams/fork.py:95-113 | the before-window is well-formed exactly when the checkpoint does not split a result block |
| Fork.WindowsPartition | openjiuwen/agent_teams/fork.py:86-113 | the two windows concatenate to the conversation, complete or with a call open, exactly when the checkpoint does not split a result block |
| Fork.ForkSafe | openjiuwen/agent_teams/fork.py:84-115 | for a complete conversation and for one whose last call is still partly unanswered, every checkpoint, in range or not, and either side: exactly when the inherited conversation is well-formed |
| ForkCompact.Agent.Compact | openjiuwen/agent_teams/fork_compact.py:60-108 | the agent's messages become the kept side and a message with the heading and the summary of exactly the other side, or stay as they were when the index is out of range or the engine out of reach |
| ForkCompact.SidesPartition | openjiuwen/agent_teams/fork_compact.py:70-82 | the kept and the compressed side are contiguous and together the conversation |
| ForkCompact.TailKeepsForkWindow | openjiuwen/agent_teams/fork_compact.py:70-79 | with direction `after` the kept head is the fork's before-window exactly when the index does not split a block, a call still being open or not |
| ForkCompact.HeadKeepsForkWindow | openjiuwen/agent_teams/fork_compact.py:80-82 | with direction `before` the kept tail is the fork's after-window exactly when the index is not at a result |
| ForkCompact.TailCompactionSafe | openjiuwen/agent_teams/fork_compact.py:70-94 | with direction `after` the compacted conversation is well-formed at every index, unless the index is behind a call that is still open |
| ForkCompact.HeadCompactionSafe | openjiuwen/agent_teams/fork_compact.py:80-96 | with direction `before` it is exactly when no call is open and the index is not at a tool result |
| Walks.GetNeighbours | examples/MANGO/PolicyGradient.py:63-78 | the list is levels 1 to `k` in order, and each step entry is the last level its node is on |
| Walks.WalkListExact | examples/MANGO/PolicyGradient.py:70-74 | expanding level by level meets every walk of a length exactly once |
| Walks.ListIsWalksInOrder | examples/MANGO/PolicyGradient.py:63-78 | the list is the ends of the walks of length 1 to `k`, each walk once, shorter ones first and those of a length in the order of the successors they take |
| Walks.MultiplicityCountsWalks | examples/MANGO/PolicyGradient.py:63-78 | a node occurs in the list once for each walk of length 1 to `k` to it |
| Walks.StepIsLongestWalk | examples/MANGO/PolicyGradient.py:65-76 | a step entry exists exactly for nodes some walk reaches and is the longest such walk's length |
| TaskGraph.RunningMean | examples/MANGO/utilities.py:288-291 | the incremental centroid update gives the mean of all stored vectors |
| TaskGraph.PathDistinct | examples/MANGO/utilities.py:254-307 | a path runs from node 0 to node 1 without repeating a node |
| TaskGraph.UsesNext | examples/MANGO/utilities.py:309-315 | on a path without repeats each edge is met once |
| TaskGraph.PlacedKeepsTables | examples/MANGO/utilities.py:279-304 | joining a node or opening a new one keeps every node's data and centroids equal to what the runs assigned to it |
| TaskGraph.RunKeepsEdges | examples/MANGO/utilities.py:309-315 | after a path's edges are recorded, each edge has exactly the tasks whose path uses it, in order |
| TaskGraph.RunKeepsIndex | examples/MANGO/utilities.py:306-320 | `tid_to_path`, `query_to_edge` and `starting_nodes` describe the built paths |
| TaskGraph.GraphBuilder.FindMatch | examples/MANGO/utilities.py:267-277 | the loop finds the most similar eligible node, the earliest on ties, or none |
| TaskGraph.BestMatchMeans | examples/MANGO/utilities.py:267-277 | the best match has the greatest mean of the two cosine similarities among the nodes off the path that reach the threshold and exceed -1, and is the earliest such node |
| TaskGraph.GraphBuilder.Join | examples/MANGO/utilities.py:281-291 | the updates of a node's lists and running centroids |
| TaskGraph.GraphBuilder.Open | examples/MANGO/utilities.py:292-304 | the new node with its first subtask |
| TaskGraph.GraphBuilder.AddSubtask | examples/MANGO/utilities.py:256-304 | the subtask joins its best match or a new node; it fails exactly when the best match is node 1 |
| TaskGraph.JoinsUnique | examples/MANGO/utilities.py:267-279 | the tables determine where a subtask goes, and that excludes a match on node 1 |
| TaskGraph.GreedyUnique | examples/MANGO/utilities.py:252-304 | the graph a workflow starts from determines the node of each of its subtasks |
| TaskGraph.FirstSubtaskStops | examples/MANGO/utilities.py:267-282 | a first subtask stops the construction exactly when it is similar enough to the target node, whatever follows |
| TaskGraph.WalkEdges | examples/MANGO/utilities.py:309-320 | the edge loop adds the task to every edge of the path, once each, and to no other, and notes the edges and the starting node |
| TaskGraph.GraphBuilder.AddWorkflow | examples/MANGO/utilities.py:252-320 | one more workflow keeps the whole graph consistent, each of its subtasks at its best match in the graph of that moment; it fails exactly when some subtask's best match is then node 1 |
| TaskGraph.BuildGraph | examples/MANGO/utilities.py:252-320 | after all workflows the graph is consistent with one run per workflow, in order, every subtask at its best match; it fails exactly when some workflow does |
| Boxed.ReadContent | examples/MANGO/utilities.py:147-159 | the inner loop stops at the brace that closes the box, with the text before it, or at the end |
| Boxed.ExtractBoxed | examples/MANGO/utilities.py:136-162 | the nested loops end on every input; the text is then boxes of exactly the returned contents, all balanced, between texts without a box, and a rest without a closed one |
| Boxed.ReadsAsBoxes | examples/MANGO/utilities.py:136-162 | every text can be read as boxes in this way, and the contents are what is extracted |
| Boxed.ExtractsTheContents | examples/MANGO/utilities.py:136-162 | whichever way a text is read as boxes, their contents are what is extracted, and a text without a box yields nothing |
| Boxed.ContentLengthSpec | examples/MANGO/utilities.py:150-156 | the content is the longest prefix that never closes below its start |
| Boxed.ExtractedIsBalanced | examples/MANGO/utilities.py:136-162 | every extracted string has balanced braces |
| Boxed.ExtractInvertsBoxing | examples/MANGO/utilities.py:136-162 | boxing balanced content behind opener-free text and extracting gives the content, then the extraction of the rest |
| Boxed.UnclosedYieldsNothing | examples/MANGO/utilities.py:147-162 | a box that is never closed yields nothing and hides what follows |
| TeamHybrid.AggregatorAgent.Invoke | examples/multi_agent/team_hybrid.py:123-151 | a completion is appended and sets the event when the count is reached; any other message changes nothing |
| TeamHybrid.AggregatorAgent.Reset | examples/multi_agent/team_hybrid.py:115-118 | results are cleared and the new event and count installed |
| TeamHybrid.TaskExecutionTeam.SetupSubscriptions | examples/multi_agent/team_hybrid.py:222-229 | however often it runs, every subscriber is subscribed once |
| TeamHybrid.TaskExecutionTeam.StartRun | examples/multi_agent/team_hybrid.py:237-242 | a run starts from the protocol's initial state with a new event |
| TeamHybrid.StepKeepsInvariant | examples/multi_agent/team_hybrid.py:236-307 | every step of the main process, the executors and the router conserves the results collected, on their way and still to come, as a multiset |
| TeamHybrid.CountConserved | examples/multi_agent/team_hybrid.py:218-220 | in every reachable state results, completions and executions in flight and three per publish to come add up to the expected count; the event is set exactly when all results are in |
| TeamHybrid.RunsAreShort | examples/multi_agent/team_hybrid.py:236-307 | no run takes more than 15 steps plus one per message already on its way |
| TeamHybrid.RunEnds | examples/multi_agent/team_hybrid.py:256-305 | a run that waits as long as it can reports exactly the six texts of the executors on its task and on the directly published one when invoked with a dictionary, and otherwise fails and never reports; a timed-out report is a sub-multiset |
| TeamHybrid.PlainFails | examples/multi_agent/team_hybrid.py:269-278 | anything but a dictionary fails at the direct publish, with the orchestrator's requests already on their way |
| Template.MatchSound | openjiuwen/agent_teams/message_template.py:52 | what the matcher finds is a placeholder |
| Template.MatchComplete | openjiuwen/agent_teams/message_template.py:52 | a placeholder at the start is found, with its two names and its length |
| Template.PlaceholderMeans | openjiuwen/agent_teams/message_template.py:52 | a placeholder is two names of lower-case letters and underscores with a dot between them, in double braces with white space inside them or none |
| Template.TokenizeReads | openjiuwen/agent_teams/message_template.py:246 | the pass loses no character, takes only placeholders and leaves none behind |
| Template.ReadingUnique | openjiuwen/agent_teams/message_template.py:246 | there is only one way to read a template, whatever the values |
| Template.SubstituteReads | openjiuwen/agent_teams/message_template.py:236-246 | the document is the template's literal text with a value or a missing mark for each placeholder |
| Template.ValuesVerbatim | openjiuwen/agent_teams/message_template.py:22-24 | a value lands verbatim, braces included, and what stands around it is substituted as if alone |
| Template.RenderDepends | openjiuwen/agent_teams/message_template.py:236-246 | the document depends only on the values its placeholders ask for |
| TemplateMessages.BuildMeta | openjiuwen/agent_teams/message_template.py:134-150 | a built payload parses back exactly when its template key is not empty, with the same bindings |
| TemplateMessages.ResolveNamespaces | openjiuwen/agent_teams/message_template.py:203-233 | parameters, then task, then member fields; a referenced row that is missing fails |
| TemplateMessages.TaskFieldsAgree | openjiuwen/agent_teams/message_template.py:59-79 | two task rows project alike exactly when their whitelisted columns agree |
| TemplateMessages.MemberFieldsAgree | openjiuwen/agent_teams/message_template.py:81-85 | the same for member rows |
| TemplateMessages.FieldShown | openjiuwen/agent_teams/message_template.py:70-79 | asking for one task field shows that column, and a missing mark for any other name |
| TemplateMessages.MemberShown | openjiuwen/agent_teams/message_template.py:81-85 | the same for member fields |
| TemplateMessages.ShowsExactlyTheWhitelist | openjiuwen/agent_teams/message_template.py:67-79 | two task rows give the same document for every template exactly when they agree on the whitelisted columns |
| TemplateMessages.ExpansionDependsOnWhitelist | openjiuwen/agent_teams/message_template.py:167-200 | a message expands alike whenever the rows agree on their whitelisted fields |
| TemplateMessages.ExpansionShows | openjiuwen/agent_teams/message_template.py:167-246 | with its rows and its template there, a message is delivered as the template, however read, with each slot showing the parameter or the column it asks for, and a mark for any other name |
| TemplateMessages.ExpansionFails | openjiuwen/agent_teams/message_template.py:190-233 | a missing row or template leaves a line that names the template and the task, if one is referenced |
| TemplateMessages.OrdinaryDelivered | openjiuwen/agent_teams/message_template.py:115-189 | a message without a template key is delivered as its content |
| TemplateMessages.FallbackMeans | openjiuwen/agent_teams/message_template.py:153-164 | the stand-in line, for a missing template key too |
| TemplateMessages.JoinedMeans | openjiuwen/agent_teams/message_template.py:59-60 | the reviewers are their names with commas between them |

## Left out

- SQL: execution, file copying and query post-processing; float `str` texts are given, not computed, and blobs, NaN and ragged tables are not modelled.
- SqlEval.ConstraintPermutations: the 20 random rows are arbitrary rows, so the result holds for every sampling; hashing cells is assumed to agree with `==`.
- ShardPlan: shards are values replaced in a sequence, not shared dictionaries updated through two references.
- ShardArchive: the set a shard's own collection shows is an input, subprocesses, clocks, environment and XML parsing with it; missing and extra ids are sets, not sorted lists; messages printed are not modelled.
- ShardRuns: `junit` files are written before a result is recorded; two runners on one archive at once are not modelled. A save is atomic, as the temporary file and rename make it.
- ShardRuns.Confluence: shards that show something different on every run are left out, as nothing could be confluent about them.
- ShardArchive: parse-error texts are not empty, as the parser's always name a line and a column; which node id a test case names is in the model, but the runner does not look at it.
- Markup.ParsePrint: the reader is the inverse of the printer; an XML processor would also normalise white space inside attribute values (section 3.3.3 of XML 1.0), which loses information a sender, id or time may hold.
- InboundRender.Render: attribute values are strings; `str()` of other values happens before.
- Fork.FromAgent: messages are roles, texts and call ids; the fallback to a persisted conversation, encoding and normalising of messages are not part of this model.
- ForkCompact.Agent.Compact: the model call is an arbitrary function from the compressed side to a summary.
- TaskGraph.BuildGraph: embeddings are inputs of one dimension, cosine similarity an arbitrary function, numbers exact reals; prompts, models and the closing loop over role descriptions are left out, as are the builder's contents after an error.
- TeamHybrid: sessions, streams and the runtime's own queues; a delivered message is handled in one step. Messages of a timed-out run that reach the next one are left out, but messages no agent looks for may be on their way at the start.
- TemplateMessages: JSON text and template files are given parsed; values are strings, and a `template` or reference that is not a string is not modelled.
- Other tools, demos, i18n tables, time formats, test control and archive reports: plumbing or single branches.
