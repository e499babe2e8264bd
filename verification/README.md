# Longan, verified

A Dafny model of the algorithms and protocols of the Longan library that carry a claim worth proving. Every part keeps
the form of the code it models: classes whose methods update fields and arrays, loops where the code loops, and
transition systems where the code is a protocol between threads. Each method is tied by its contract to a
specification, and lemmas about the specification state what the code is for.

| file | what it holds |
|---|---|
| `WeightedBipartiteMaxMatch.dfy`, `BipartiteMaxMatch.dfy`, `Matchings.dfy` | the assignment solver and the unweighted matcher, with their optimality by duality and by vertex covers |
| `Graph.dfy`, `EulerPath.dfy` | the adjacency matrix of edge counts and the Euler trail found by depth-first search |
| `AdjacencyList.dfy`, `TopoSort.dfy` | the threaded adjacency lists and the topological sort |
| `Prim.dfy`, `BellmanFord.dfy` | minimum spanning trees and shortest walks with negative cycle detection |
| `ObjectBuffer.dfy`, `PipelinedScheduler.dfy`, `PipelineProgress.dfy` | the bounded buffer as a monitor, the scheduler that chains two of them, and a bound on the work of its runs |
| `EvaluateRanking.dfy`, `EvaluationRun.dfy` | the ranking evaluation, single-threaded and on the pipeline |
| `SvdTraining.dfy`, `SvdProgress.dfy` | parallel gradient descent over grid blocks and its row and column flags, and how a run goes on |
| `AesField.dfy`, `AesTables.dfy`, `AesBlocks.dfy`, `AesCipher.dfy`, `AesText.dfy`, `AesCryption.dfy`, `AesStandard.dfy` | AES-128 with hexadecimal framing, and that it is what FIPS 197 defines |
| `QuickSort.dfy`, `CountInversion.dfy`, `Next.dfy` | quicksort with its insertion finish, inversion counting, and the next permutation and combination |
| `BinaryHeap.dfy`, `RunningStatistic.dfy` | the binary heap and the k best values of a stream |
| `Similarity.dfy`, `StaticSchedule.dfy` | the item similarities, and the closed-form split of the pairs over threads |
| `IndexSets.dfy`, `Arithmetic.dfy`, `Sums.dfy` | finite sets of indices, row-by-row storage, sums |

Conventions. Values of the template types are integers, and the largest value of the weight type used as a sentinel is
read as infinity. A thread's turn is what it does between taking the mutex and releasing it or waiting; any thread that
waits may wake up without being notified, and others may take the mutex first. A gradient step is an arbitrary function
of exactly the two cells it reads. The arithmetic of the similarities is a parameter whose only law is that products
commute. The `hide` statements in some proofs only keep definitions folded.

Where code and comments disagree the model follows the code: `CountInversion` promises the number of pairs
`i < j` with `array[i] > array[j]` but also counts equal pairs, and the multi-threaded trainer dispatches every block
`Iterations - 1` times where the single-threaded one runs `Iterations` times.

## Model

| member | source | states |
|---|---|---|
| `WeightedBipartiteMatching.WeightedBipartiteMaxMatch.ComputeMaxMatch` | algorithm/graph/weighted_bipartite_max_match.h:42-94 | terminates when there are no more left than right vertices; the list assigns to every left vertex in turn a right vertex of its own, the result is the sum of the weights it assigns, and no assignment of distinct right vertices to the left ones has a greater sum |
| `WeightedBipartiteMatching.WeightedBipartiteMaxMatch.Find` | algorithm/graph/weighted_bipartite_max_match.h:115-131 | a successful search augments the matching by its root along tight edges; a failed one changes nothing but marks and slacks, and has compared every marked left vertex with every right vertex |
| `WeightedBipartiteMatching.WeightedBipartiteMaxMatch.PlaceVertex` | algorithm/graph/weighted_bipartite_max_match.h:46-70 | the search for one left vertex ends with that vertex matched and everything matched before still matched along tight edges; each failed round strictly enlarges the set of right vertices the next one must reach |
| `WeightedBipartiteMatching.WeightedBipartiteMaxMatch.SearchFrom` | algorithm/graph/weighted_bipartite_max_match.h:49-51 | a search from the root with cleared marks either extends the tight matching by the root or leaves it as it was, saturated with marks; it never succeeds for a root numbered at least the number of right vertices |
| `WeightedBipartiteMatching.WeightedBipartiteMaxMatch.Relabel` | algorithm/graph/weighted_bipartite_max_match.h:52-69 | after a failed search the least slack is finite and positive, and moving the potentials by it keeps them feasible and the matching tight while one more right vertex comes within reach |
| `WeightedBipartiteMatching.WeightedBipartiteMaxMatch.LeastUnmarkedSlack` | algorithm/graph/weighted_bipartite_max_match.h:52-56 | no unmarked right vertex has a smaller slack, and the value is attained at one unless all are infinite |
| `WeightedBipartiteMatching.WeightedBipartiteMaxMatch.AdjustPotentials` | algorithm/graph/weighted_bipartite_max_match.h:57-69 | exactly the marked left potentials fall, the marked right potentials rise and the unmarked slacks fall by d |
| `WeightedBipartiteMatching.WeightedBipartiteMaxMatch.Init` | algorithm/graph/weighted_bipartite_max_match.h:97-112 | the first potentials are feasible for every weight matrix, with nothing matched |
| `WeightedBipartiteMatching.WeightedBipartiteMaxMatch.CollectMatch` | algorithm/graph/weighted_bipartite_max_match.h:71-93 | the sum over the links is the weight of the matching, and the list has each matched pair once, sorted by left vertex |
| `AssignmentPhases.FailedSaturates` | algorithm/graph/weighted_bipartite_max_match.h:115-131 | a failed search marks the least set closed under tight edges and matched partners, and each outside slack is the least reduced cost over the marked left vertices |
| `AssignmentPhases.SomeRightUnmarked` | algorithm/graph/weighted_bipartite_max_match.h:48-70 | when there are no more left than right vertices a failed search leaves a right vertex unmarked |
| `AssignmentPhases.LeastIsFinite` | algorithm/graph/weighted_bipartite_max_match.h:52-56 | so the adjustment is finite |
| `AssignmentPhases.Adjust` | algorithm/graph/weighted_bipartite_max_match.h:57-69 | the adjustment is positive and keeps feasibility, tightness of matched edges and zero potential on unmatched right vertices |
| `AssignmentDuality.Optimal` | algorithm/graph/weighted_bipartite_max_match.h:42-94 | weak duality: no matching that uses every left vertex is heavier than a tight one under feasible potentials |
| `AssignmentDuality.WeightBound` | algorithm/graph/weighted_bipartite_max_match.h:71-81 | every matching weighs at most the potentials of its ends, with equality when it is tight |
| `AssignmentDuality.LeftTotalOfCover` | algorithm/graph/weighted_bipartite_max_match.h:42-94 | all matchings that use the same left vertices collect the same left potentials |
| `AssignmentDuality.NoCover` | algorithm/graph/weighted_bipartite_max_match.h:42-94 | with more left than right vertices there is no matching that uses every left vertex |
| `Assignments.AssignmentsBounded` | algorithm/graph/weighted_bipartite_max_match.h:42-94 | a bound on the weights of all matchings that use every left vertex bounds the weights of all assignments |
| `Assignments.InverseWeight` | algorithm/graph/weighted_bipartite_max_match.h:71-93 | an assignment and the links of the right vertices it comes from weigh the same |
| `BipartiteMatching.BipartiteMaxMatch.ComputeMaxMatch` | algorithm/graph/bipartite_max_match.h:33-46 | the result is the size of a matching, no matching is larger, and a vertex cover of the same size certifies it, although each left vertex is tried once |
| `BipartiteMatching.BipartiteMaxMatch.Find` | algorithm/graph/bipartite_max_match.h:49-60 | a successful search augments the matching and leaves every blocked pair of sets alone; a failed one leaves the matching alone and has scanned all it reached |
| `BipartiteMatching.BipartiteMaxMatch.Try` | algorithm/graph/bipartite_max_match.h:39-44 | one turn of the outer loop: the vertex is matched, or a blocked pair of sets now holds it |
| `BipartiteModel.TryFailed` | algorithm/graph/bipartite_max_match.h:39-44 | a failed search leaves a closed alternating set, and its union with the earlier ones is closed again |
| `BipartiteModel.TryFound` | algorithm/graph/bipartite_max_match.h:39-44 | an augmentation disturbs none of the closed sets left by earlier failures |
| `BipartiteModel.BlockedCovers` | algorithm/graph/bipartite_max_match.h:33-46 | at the end the closed sets give a vertex cover with exactly one vertex for each matched pair |
| `BipartiteModel.CoverBound` | algorithm/graph/bipartite_max_match.h:33-46 | no matching is larger than a vertex cover |
| `EulerPaths.EulerPath.FindEulerPath` | algorithm/graph/euler_path.h:17-32 | the check fails and nothing happens, or the path is a trail from the start vertex that uses every reachable edge exactly as often as it occurs, parallel edges included, and ends where the degrees say; a trail that uses all edges of the graph exists exactly when the check passes and all edges are reachable from the start |
| `EulerPaths.EulerPath.Find` | algorithm/graph/euler_path.h:34-42 | one frame takes out of the graph a trail from its vertex that leaves no edge at any vertex of the trail, and appends it reversed |
| `EulerPaths.EulerPath.FollowEdge` | algorithm/graph/euler_path.h:36-39 | removing one edge and finishing the child splices the child's trail in; afterwards no parallel edge to that neighbour is left |
| `Trails.SpliceChild` | algorithm/graph/euler_path.h:34-42 | looking at each neighbour once is enough: when the child has finished, its vertex has lost all its edges |
| `Trails.EndFrame` | algorithm/graph/euler_path.h:34-42 | when every neighbour has been looked at, the frame has walked all edges of the vertices on its trail |
| `Trails.TakeEdge` | algorithm/graph/euler_path.h:36-39 | taking an edge out moves the start of the outstanding trail to the other end |
| `Trails.WalkedIsEulerTrail` | algorithm/graph/euler_path.h:17-42 | a trail that leaves no edge at its vertices uses every edge reachable from its start, and no other |
| `Trails.HandShake` | algorithm/graph/euler_path.h:19-28 | edges counted by tails and by heads agree |
| `Trails.PassingDegrees` | algorithm/graph/euler_path.h:19-28 | the degree check passes only for degrees a single trail can have, between the two unbalanced vertices or back to the start |
| `Trails.TrailPasses` | algorithm/graph/euler_path.h:19-28 | the check turns away no graph that has a trail from the start to the finish, or back to the start, using every edge as often as it occurs |
| `Trails.UsesAllWhenReachable` | algorithm/graph/euler_path.h:17-42 | a trail uses all edges exactly when it uses those reachable from its start and there are no others |
| `AdjacencyMatrix.DirectedGraphAsAdjMatrix.AddEdge` | algorithm/graph/graph.h:90 | one more parallel edge from u to v, no other count changed |
| `AdjacencyMatrix.DirectedGraphAsAdjMatrix.RemoveEdge` | algorithm/graph/graph.h:92 | one edge fewer from u to v, no other count changed |
| `AdjacencyMatrix.DirectedGraphAsAdjMatrix.ExistEdge` | algorithm/graph/graph.h:88 | true exactly when the count of edges from u to v is positive |
| `AdjacencyMatrix.DirectedGraphAsAdjMatrix.DegreeOutOfVertex` | algorithm/graph/graph.h:104-112 | the strided walk over the flat array adds up row u |
| `AdjacencyMatrix.DirectedGraphAsAdjMatrix.DegreeInOfVertex` | algorithm/graph/graph.h:113-121 | the strided walk over the flat array adds up column v |
| `BufferTurns.ConsumersStayAwake` | common/threading/object_buffer.h:111-242 | every turn keeps it that while a consumer is parked there are at least as many notified consumers as queued objects, with spurious wakeups and barging allowed |
| `BufferTurns.ProducersStayAwake` | common/threading/object_buffer.h:111-242 | every turn but Clear keeps the same of producers and free slots |
| `BufferRuns.NoLostWakeup` | common/threading/object_buffer.h:111-242 | both halves hold in every state of every run, the producers' half as long as Clear is called only while no push is pending |
| `BufferRuns.WaitingIsPending` | common/threading/object_buffer.h:111-126 | in every run the threads that wait to push, notified or not, are exactly those that have called push and not returned |
| `BufferRuns.ClearStrands` | common/threading/object_buffer.h:111-126 | with room for one object, a push, a second push that waits and then Clear leave the second producer asleep in front of an empty queue with nobody notified |
| `BufferRuns.ClearStrandsWhen` | common/threading/object_buffer.h:227-231 | in every run in which before it nothing has been popped, no consumer has quit and the buffer has not been failed, Clear strands exactly the producers that have called push and not returned |
| `BufferRuns.StaysStranded` | common/threading/object_buffer.h:167-203 | from there on, however often consumers pop, the producer sleeps on and no pop returns an object, unless it wakes up without being notified, or another thread pushes, quits as a consumer or fails the buffer |
| `BufferRuns.RunHolds` | common/threading/object_buffer.h:111-242 | in every run the queue holds the contiguous newest ids in push order and never exceeds its capacity, across Clear, quits and ForceFail |
| `BufferRuns.TurnHolds` | common/threading/object_buffer.h:111-242 | every turn keeps ids contiguous, order first in first out and size within capacity |
| `BufferRuns.PopsInPushOrder` | common/threading/object_buffer.h:167-203 | every pop returns the object together with the id of its push, and later pops return later ids |
| `BufferRuns.OutcomeExpected` | common/threading/object_buffer.h:111-242 | in every run the way each call ends is settled by the calls before it: it waits, is refused, or returns failure, no consumer, no more object or a quit out of turn exactly when the objects stored, the quits counted and a failure before it say so; no more object is returned exactly when the buffer has not failed, nothing is stored and all producers have quit |
| `ObjectBuffers.ObjectBuffer.Push` | common/threading/object_buffer.h:111-126 | one turn under the mutex is a turn of the push relation: it waits, fails, finds no consumer, or enters the object with the next id and notifies one consumer |
| `ObjectBuffers.ObjectBuffer.TryPush` | common/threading/object_buffer.h:129-144 | the turn that never waits |
| `ObjectBuffers.ObjectBuffer.Pop` | common/threading/object_buffer.h:167-183 | one turn of the pop relation: it waits, fails, reports the end, or takes the oldest object with its id and notifies one producer |
| `ObjectBuffers.ObjectBuffer.TryPop` | common/threading/object_buffer.h:186-203 | the turn that never waits |
| `ObjectBuffers.ObjectBuffer.ProducerQuit` | common/threading/object_buffer.h:147-164 | only the last of a finite number of producers ends the stream and wakes all consumers |
| `ObjectBuffers.ObjectBuffer.ConsumerQuit` | common/threading/object_buffer.h:206-224 | only the last of a finite number of consumers empties the queue and wakes all producers |
| `ObjectBuffers.ObjectBuffer.Clear` | common/threading/object_buffer.h:227-231 | empties the queue, notifies nobody and keeps the ids running |
| `ObjectBuffers.ObjectBuffer.ForceFail` | common/threading/object_buffer.h:234-242 | fails the buffer for good and wakes everybody |
| `Pipelines.PipelineSafety` | common/threading/pipelined_scheduler.h:34-66 | in every run from the start: no put is ever refused, tasks put are in a buffer, held or consumed at all times, an unfinished state is never stuck, and at the end every task has been consumed as often as planned |
| `Pipelines.StepKeeps` | common/threading/pipelined_scheduler.h:34-66 | every step of every thread keeps registration counts, conservation, seating and wakefulness of both buffers |
| `Pipelines.StepOrderly` | common/threading/pipelined_scheduler.h:34-66 | no step makes a put of a worker fail, so the scheduler's assertions hold |
| `Pipelines.NotStuck` | common/threading/pipelined_scheduler.h:34-66 | unless all threads have finished, some thread that is not parked can take a step that does not end in a wait |
| `PipelineProgress.BoundedWork` | common/threading/pipelined_scheduler.h:34-66 | whatever the schedule, a run has at most five steps a task, one a producer, three a worker and two a consumer that do not end in a wait |
| `PipelineProgress.StepWork` | common/threading/pipelined_scheduler.h:34-66 | every step that does not end in a wait uses up work, and no step adds any |
| `PipelineProgress.EveryRunCanFinish` | common/threading/pipelined_scheduler.h:34-66 | every run can be continued until all threads have finished, in no more steps than its start has work |
| `Pipelines.FinishedBalance` | common/threading/pipelined_scheduler.h:52-66 | when all threads have finished both buffers are empty, no thread holds a task, and every task has been consumed as often as planned |
| `PipelinedSchedulers.PipelinedScheduler.ProducerPutTask` | common/threading/pipelined_scheduler.h:34-37 | a turn of push on the first buffer; the assertion on its return code holds exactly when the buffer has not failed and has a consumer left |
| `PipelinedSchedulers.PipelinedScheduler.WorkerGetTask` | common/threading/pipelined_scheduler.h:38-42 | a turn of pop on the first buffer; the result is null exactly when the buffer has failed or is empty for good, and the oldest task otherwise |
| `PipelinedSchedulers.PipelinedScheduler.WorkerPutTask` | common/threading/pipelined_scheduler.h:43-46 | a turn of push on the second buffer; the assertion on its return code holds exactly when the buffer has not failed and has a consumer left |
| `PipelinedSchedulers.PipelinedScheduler.ConsumerGetTask` | common/threading/pipelined_scheduler.h:47-51 | a turn of pop on the second buffer; the result is null exactly when the buffer has failed or is empty for good, and the oldest task otherwise |
| `PipelinedSchedulers.PipelinedScheduler.ProducerDone` | common/threading/pipelined_scheduler.h:52-55 | the producer quits the first buffer; the assertion holds exactly when that buffer has not failed and has a producer left to quit |
| `PipelinedSchedulers.PipelinedScheduler.WorkerDone` | common/threading/pipelined_scheduler.h:56-62 | the worker quits the first buffer as a consumer, then the second as a producer, here with no other thread in between; the assertions hold exactly when both have somebody left to quit and neither has failed |
| `PipelinedSchedulers.PipelinedScheduler.ConsumerDone` | common/threading/pipelined_scheduler.h:63-66 | the consumer quits the second buffer; the assertion holds exactly when that buffer has not failed and has a consumer left to quit |
| `EvaluateRanking.RunningPermutes` | recsys/evaluate/evaluate_ranking_delegate.cpp:90-110 | the counters do not depend on the order in which bundles arrive |
| `EvaluateRanking.EvaluateOneUser` | recsys/evaluate/evaluate_ranking_delegate.cpp:14-30 | the first counter grows by the number of ranked items that are rated, when the rated ones are ascending, the second by the number of ranked items and the third by the number of rated items |
| `EvaluateRanking.BSearch` | common/base/algorithm.h:45-61 | halves the range as the code does; a place returned holds the key, and among ascending items nothing is missed |
| `EvaluateRanking.HitsAreRated` | recsys/evaluate/evaluate_ranking_delegate.cpp:14-30 | when the rated items are ascending, the hits are the ranked items among them |
| `EvaluateRanking.TotalCounts` | recsys/evaluate/evaluate_ranking_delegate.cpp:14-45 | over all users the counters are the sums of the numbers of ranked items that are rated, of ranked items and of rated items |
| `EvaluateRanking.EvaluateST` | recsys/evaluate/evaluate_ranking_delegate.cpp:32-45 | the counters of the single-threaded loop are those three sums over all users |
| `EvaluateRanking.ProducerRun` | recsys/evaluate/evaluate_ranking_delegate.cpp:61-74 | the bundles hold every user once, in order, and all but the last are full |
| `EvaluateRanking.WorkerTask` | recsys/evaluate/evaluate_ranking_delegate.cpp:76-88 | every task of the bundle gets the score of its user |
| `EvaluateRanking.ConsumerTask` | recsys/evaluate/evaluate_ranking_delegate.cpp:90-110 | adds exactly the scores of one bundle |
| `EvaluationRuns.MatchesSingleThread` | recsys/evaluate/evaluate_ranking_delegate.cpp:32-110 | when the evaluation on the pipeline has finished, the counters the consumer has added up task by task equal those of the single-threaded loop, whatever the schedule: the sums over all users of ranked items that are rated, of ranked items and of rated items |
| `EvaluationRuns.StepGood` | recsys/evaluate/evaluate_ranking_delegate.cpp:61-110 | every step keeps it that bundles not yet taken are unscored, a bundle with a worker is scored as far as the worker is, one that has left its worker has every task scored once, and the counters are those of the bundles consumed and of the part added of the one in use |
| `EvaluationRuns.HeldAlone` | recsys/evaluate/evaluate_ranking_delegate.cpp:76-88 | a bundle a worker is scoring is in no buffer and with no other worker or consumer |
| `SgdSchedule.Serialisable` | recsys/svd/svd_model_computation.cpp:230-316 | at the end of every run the shared model is what the dispatched blocks make of the first model one after the other, and each block was dispatched exactly Iterations-1 times |
| `SgdSchedule.InFlightApart` | recsys/svd/svd_model_computation.cpp:230-316 | in every reachable state blocks in flight share neither row nor column, although flags are scanned one by one without the lock and the consumer clears its two flags one after the other |
| `SgdSchedule.StepKeeps` | recsys/svd/svd_model_computation.cpp:230-316 | every step of producer, workers and consumer keeps exclusivity, counts and serialisability |
| `SgdSchedule.SafeChoose` | recsys/svd/svd_model_computation.cpp:234-260 | a candidate found by an unlocked scan is still free when it is chosen |
| `SgdSchedule.SafeReleaseRow` | recsys/svd/svd_model_computation.cpp:303-312 | clearing the row flag alone frees no row or column of another block in flight, although a scan may see it before the column flag is cleared |
| `SgdSchedule.SafeReleaseCol` | recsys/svd/svd_model_computation.cpp:303-313 | nor does clearing the column flag after it |
| `SgdProgress.CanGoOn` | recsys/svd/svd_model_computation.cpp:230-316 | no reachable state is a dead end: a run that has not ended has a next step |
| `SgdSchedule.NeverStuck` | recsys/svd/svd_model_computation.cpp:277-316 | in every reachable state with a block in flight, and at least one worker, some block can be moved on towards its release |
| `SgdProgress.NoFlightNoFlags` | recsys/svd/svd_model_computation.cpp:230-316 | with no block in flight every flag is clear |
| `SgdProgress.FreeScanStep` | recsys/svd/svd_model_computation.cpp:234-266 | with no block in flight, a free scan and a block left to dispatch, every step either scans on with every cell passed still accounted for, or chooses a block; the producer never gives up empty-handed |
| `SgdProgress.FreeScanChooses` | recsys/svd/svd_model_computation.cpp:234-266 | in every run, a scan that begins with no block in flight and a block left to dispatch chooses one within numRow (numCol + 2) + 1 steps, whatever the schedule; ChoosesLeast says which |
| `SgdProgress.ChoosesLeast` | recsys/svd/svd_model_computation.cpp:234-266 | in every run, the block chosen by any scan has been dispatched at most as often as every unfinished block whose flags were clear when the scan began, and every such block dispatched as often is among the candidates |
| `SgdProgress.EveryRunCanEnd` | recsys/svd/svd_model_computation.cpp:230-316 | every run, with at least one worker, can be continued to its end |
| `SgdSchedule.GridPosition` | recsys/svd/svd_model_computation.cpp:230-316 | row and column computed from a grid id are within the grid |
| `SgdModel.Training.ApplyLate` | recsys/svd/svd_model_computation.cpp:27-72 | a rating applied after later blocks have begun gives the model it would have given in its own turn |
| `SgdModel.Training.Commute` | recsys/svd/svd_model_computation.cpp:41-71 | updates of different users and items commute |
| `SgdModel.Training.CommuteBlock` | recsys/svd/svd_model_computation.cpp:27-72 | a rating commutes with any part of a block apart from it |
| `SgdModel.Training.BlockTrace` | recsys/svd/svd_model_computation.cpp:27-72 | a block is run rating by rating: each leaves the new values in its user's and its item's cell, computed from both old ones, and every other cell alone |
| `SgdBlocks.ModelComputation.SGDOneMatrix` | recsys/svd/svd_model_computation.cpp:27-72 | applies all ratings of one block in order, each to the two cells of its user and its item as the ratings before it left them, and changes no cell of a user outside its row or of an item outside its column |
| `SgdBlocks.PlaceRatings` | recsys/svd/svd_util.cpp:179-191 | every rating is placed exactly once, in the block of its user and its item, and the grid id is in range |
| `SgdBlocks.LoadedGridValid` | recsys/svd/svd_util.cpp:179-191 | a grid filled that way is one the training can run on |
| `SgdBlocks.CeilDiv` | recsys/svd/svd_util.cpp:179-180 | the least block size that covers all users or items |
| `PrimAlgorithm.Prim.Compute` | algorithm/graph/prim.h:20-47 | the total weight is the weight of a spanning tree and at most that of every spanning tree |
| `PrimAlgorithm.Prim.Start` | algorithm/graph/prim.h:20-28 | a one-vertex tree with the direct distances from it |
| `PrimAlgorithm.Prim.Closest` | algorithm/graph/prim.h:30-38 | an unmarked vertex at the least distance |
| `PrimAlgorithm.Prim.Approach` | algorithm/graph/prim.h:41-45 | after lowering, every outside distance is the least weight of an edge from the tree |
| `PrimAlgorithm.Prim.AddClosest` | algorithm/graph/prim.h:29-46 | one turn of the loop: the tree grows by a lightest edge and stays part of a minimum spanning tree |
| `SpanningTrees.Exchange` | algorithm/graph/prim.h:20-47 | a spanning tree has an edge on the path between the ends of any crossing edge that leaves the set and can be exchanged for it |
| `SpanningTrees.Improve` | algorithm/graph/prim.h:29-46 | exchanging for a lightest crossing edge gives a spanning tree that is no heavier |
| `SpanningTrees.GreedyChoice` | algorithm/graph/prim.h:29-46 | the cut property: a lightest edge out of the set may join the chosen edges |
| `PrimAlgorithm.FullyGrown` | algorithm/graph/prim.h:20-47 | a tree on all vertices that is part of a minimum spanning tree is one |
| `BellmanFordAlgorithm.BellmanFord.Compute` | algorithm/graph/bellmanford.h:21-43 | the flag is false exactly when there is no negative cycle, and then no distance exceeds the source value plus the length of a walk from the source, nor the initial value plus the length of a walk from any other vertex, and every distance is attained by one such walk, for any source and initial values |
| `BellmanFordAlgorithm.BellmanFord.Relax` | algorithm/graph/bellmanford.h:50-57 | an edge is relaxed exactly when it improves its end, and nothing else changes |
| `BellmanFordAlgorithm.BellmanFord.RelaxAll` | algorithm/graph/bellmanford.h:28-33 | one in-place pass accounts for walks of one more edge, and reports a change exactly when some edge could be relaxed before it |
| `BellmanFordAlgorithm.BellmanFord.RelaxRounds` | algorithm/graph/bellmanford.h:27-36 | the passes, with their early break, account for all walks of fewer edges than vertices |
| `BellmanFordAlgorithm.BellmanFord.Detect` | algorithm/graph/bellmanford.h:37-42 | the flag is set exactly when some edge can still be relaxed, and after the passes that is exactly when there is a negative cycle; without it the distances stay as they were |
| `BellmanFordAlgorithm.MinimalMeans` | algorithm/graph/bellmanford.h:21-43 | minimal distances over the start values are the shortest ones from the source, or from elsewhere at the initial value |
| `WeightedWalks.CutCycle` | algorithm/graph/bellmanford.h:21-43 | without a negative cycle a long walk has a shorter one that is no longer in length |
| `WeightedWalks.ShortWalk` | algorithm/graph/bellmanford.h:21-43 | so every walk can be replaced by one of fewer edges than vertices |
| `WeightedWalks.StableIsMinimal` | algorithm/graph/bellmanford.h:37-42 | distances no edge can relax are minimal and exclude a negative cycle |
| `WeightedWalks.StableUnlessCycle` | algorithm/graph/bellmanford.h:37-42 | after enough passes the distances are stable exactly when there is no negative cycle |
| `WeightedWalks.PassDone` | algorithm/graph/bellmanford.h:28-33 | updates made during a pass do not spoil its bound |
| `AesText.RoundTrip` | common/crypto/aes_cryption.cpp:86-145 | for all round keys and content of every length the encrypted text is well framed and decrypts to the content |
| `AesCryptions.AESCryption.constructor` | common/crypto/aes_cryption.cpp:13-56 | the round keys are the expansion of the key by the recurrence of FIPS 197 section 5.2, word by word, with powers of x for the round constants |
| `AesCryptions.AESCryption.Encrypt` | common/crypto/aes_cryption.cpp:86-104 | the text is the blocks' hexadecimal digits and the padding digit, as RoundTrip takes it |
| `AesCryptions.AESCryption.Decrypt` | common/crypto/aes_cryption.cpp:129-145 | the content DecryptText gives for any well framed text, and the only content that encrypts to it, if there is one |
| `AesCryptions.AESCryption.Encrypt16Byte` | common/crypto/aes_cryption.cpp:106-127 | the bytes end as the last of eleven states that obey the equations of FIPS 197 section 5.1 under the round keys, byte by byte |
| `AesCryptions.AESCryption.Decrypt16Byte` | common/crypto/aes_cryption.cpp:147-168 | the ten inverse rounds in place are the block decryption, and give back the only block that encrypts to the one given |
| `AesCryptions.AESCryption.ExpanKey` | common/crypto/aes_cryption.cpp:58-84 | round key i holds the words 4i to 4i+3 of that expansion |
| `AesCryptions.AESCryption.FFmul` | common/crypto/aes_cryption.cpp:211-227 | the product in GF(2^8) by the low four bits of the factor |
| `AesCryptions.AESCryption.MixColumns` | common/crypto/aes_cryption.cpp:198-209 | every column is multiplied by the mixing matrix, in place |
| `AesCryptions.AESCryption.InvMixColumns` | common/crypto/aes_cryption.cpp:249-260 | every column is multiplied by the inverse matrix, in place |
| `AesCryptions.AESCryption.ShiftRows` | common/crypto/aes_cryption.cpp:186-196 | row r moves r places to the left, in place |
| `AesCryptions.AESCryption.InvShiftRows` | common/crypto/aes_cryption.cpp:229-239 | row r moves r places to the right, in place |
| `AesCryptions.AESCryption.SubBytes` | common/crypto/aes_cryption.cpp:178-184 | every entry is looked up, in place |
| `AesCryptions.AESCryption.InvSubBytes` | common/crypto/aes_cryption.cpp:241-247 | every entry is looked up in the inverse table, in place |
| `AesCryptions.AESCryption.AddRoundKey` | common/crypto/aes_cryption.cpp:170-176 | the round key is added entry by entry, in place |
| `AesCipher.BlockRoundTrip` | common/crypto/aes_cryption.cpp:106-168 | block decryption undoes block encryption under any eleven round keys |
| `RoundCiphers.DecryptAfterEncrypt` | common/crypto/aes_cryption.cpp:106-168 | the round structure inverts itself for any invertible layers, the last round having no mixing layer |
| `RoundCiphers.RoundsUndone` | common/crypto/aes_cryption.cpp:114-122 | after undoing the rounds down to i the state is that of round i-1 after its substitution |
| `AesField.InvMixAfterMix` | common/crypto/aes_cryption.cpp:198-260 | the two matrices are inverse over GF(2^8) |
| `AesField.Distributes` | common/crypto/aes_cryption.cpp:211-227 | multiplication distributes over addition |
| `AesTables.InvSubAfterSub` | common/crypto/aes_cryption.cpp:15-54 | the second table inverts the first on all 256 bytes |
| `StateLayers.InvShiftRowsAfterShiftRows` | common/crypto/aes_cryption.cpp:186-239 | shifting back restores the state |
| `StateLayers.ShiftedEntry` | common/crypto/aes_cryption.cpp:186-239 | row r and column c takes the byte r columns to its right, wrapping around, and the inverse puts it back there |
| `StateLayers.ColumnsInverse` | common/crypto/aes_cryption.cpp:198-260 | column mixing is undone by any entry-wise inverse applied in rotated order |
| `AesText.UnhexHex` | common/crypto/aes_cryption.cpp:94-99 | reading the digits of bytes gives the bytes |
| `AesText.PartsOf` | common/crypto/aes_cryption.cpp:86-104 | the digits of block k are found at place 32 k, whatever follows |
| `AesStandard.TextLayout` | common/crypto/aes_cryption.cpp:86-104 | byte j of block k, which is the content with zeros after its end under the block encryption, is shown by the upper-case digits at 32 k + 2 j and 32 k + 2 j + 1 |
| `AesStandard.TextParts` | common/crypto/aes_cryption.cpp:86-104 | the text has 32 digits for every block and ends with the digit of the number of zeros added |
| `AesStandard.EncryptsByRounds` | common/crypto/aes_cryption.cpp:106-127 | the block encryption goes through states that obey the equations of the standard: row r and column c of the next state is 2 a ^ 3 b ^ c ^ d of the substituted bytes along its shifted column and the key byte, without the factors in the last round |
| `AesStandard.ScheduleExpands` | common/crypto/aes_cryption.cpp:58-84 | the schedule is the expansion of the standard: every word is the sum of the word before it and the word four before it, the former rotated, substituted and with a power of x added at every fourth word |
| `AesStandard.ConstantsArePowers` | common/crypto/aes_cryption.cpp:59 | the ten round constants are the powers x^0 to x^9 modulo x^8 + x^4 + x^3 + x + 1 |
| `AesStandard.SubIsAffineInverse` | common/crypto/aes_cryption.cpp:15-33 | for all 256 bytes the table holds the affine image of the multiplicative inverse, with zero for the inverse of zero |
| `AesStandard.MulIsProduct` | common/crypto/aes_cryption.cpp:211-227 | multiplication by four bits is the product of polynomials modulo x^8 + x^4 + x^3 + x + 1 |
| `AesStandard.MixedByte` | common/crypto/aes_cryption.cpp:198-209 | byte by byte the mixed column is 2 a ^ 3 b ^ c ^ d in that product |
| `TopoSorts.TopoSort.Compute` | algorithm/graph/topo_sort.h:20-31 | IsDAG is true exactly when the graph has no cycle, and then the sequence is a permutation of the vertices with every edge going forward |
| `TopoSorts.TopoSort.DFSVisit` | algorithm/graph/topo_sort.h:35-50 | a visit either finishes its vertex and keeps finished vertices in order, or proves a cycle |
| `TopoSorts.TopoSort.Explore` | algorithm/graph/topo_sort.h:38-47 | one edge: its head ends up finished, or a cycle has been found |
| `TopoSorts.TopoSort.Finish` | algorithm/graph/topo_sort.h:48-49 | a vertex whose successors are all finished goes in front of them |
| `TopologicalOrders.OrderedAcyclic` | algorithm/graph/topo_sort.h:20-50 | an order of all vertices excludes cycles |
| `TopologicalOrders.WalkForward` | algorithm/graph/topo_sort.h:20-50 | walks only move forward in an order |
| `TopologicalOrders.CycleFound` | algorithm/graph/topo_sort.h:43-46 | an edge to a grey vertex closes a cycle |
| `TopologicalOrders.CompleteOrder` | algorithm/graph/topo_sort.h:20-31 | an order of all vertices fills the sequence exactly |
| `AdjacencyLists.DirectedGraphAsAdjList.AddEdge` | algorithm/graph/graph.h:158-162 | the new edge comes first in the list of its tail, and no other list changes |
| `AdjacencyLists.EdgeIterator.NextVertex` | algorithm/graph/graph.h:163-176 | returns the first remaining edge and moves to a smaller index, so every iteration ends |
| `AdjacencyLists.DirectedGraphAsAdjList.GetEdgeIterator` | algorithm/graph/graph.h:177-179 | a new iterator holds the whole list of its vertex |
| `QuickSorts.QuickSort.Sort` | algorithm/sort/quick_sort.h:41-44 | sorts; the first phase leaves the array nearly sorted, the turns of the finishing pass on it are traced one by one, none of them moves its element 16 or more places, and in the end every element lies between the sorted elements 15 places to either side of where the first phase left it |
| `QuickSorts.QuickSort.DoQuickSort` | algorithm/sort/quick_sort.h:53-63 | permutes its range so that elements 16 or more places apart are in order |
| `QuickSorts.QuickSort.Partition` | algorithm/sort/quick_sort.h:79-96 | the moving hole leaves a permutation of the range split at the key |
| `QuickSorts.QuickSort.MedianOfThree` | algorithm/sort/quick_sort.h:56-59 | the three samples end up in order around the pivot |
| `QuickSorts.SidesSorted` | algorithm/sort/quick_sort.h:60-62 | what the two recursive calls achieve adds up over the split |
| `NearlySortedSequences.RanksClose` | algorithm/sort/quick_sort.h:41-63 | in the sorted arrangement of a sequence whose elements k or more apart are in order, no element is k or more places from where it was |
| `NearlySortedSequences.FewGreater` | algorithm/sort/insertion_sort.h:20-30 | in such a sequence fewer than k earlier elements are greater than any element |
| `InsertionSorts.InsertionSort.Sort` | algorithm/sort/insertion_sort.h:20-30 | sorts the first size elements; the trace has the array after every turn, and each turn moves its element to the left by exactly the number of greater elements before it |
| `InsertionSorts.InsertionSort.Insert` | algorithm/sort/insertion_sort.h:21-28 | one turn: the key goes in front of exactly the greater elements |
| `QuickSorts.NoneFar` | algorithm/sort/quick_sort.h:41-44 | sorting a range in which elements 16 or more places apart are in order takes no element 16 or more places away |
| `CountInversions.CountInversion.Count` | algorithm/sort/count_inversion.h:25-30 | returns the number of pairs i<j with a[i] >= a[j] and leaves a sorted permutation |
| `CountInversions.CountInversion.MergeSort` | algorithm/sort/count_inversion.h:33-52 | sorts the range and counts its pairs |
| `CountInversions.CountInversion.Merge` | algorithm/sort/count_inversion.h:40-51 | merges two sorted halves and counts the pairs between them |
| `InversionCounts.InversionsArePairs` | algorithm/sort/count_inversion.h:16-22 | the recursive count is the size of the set of pairs |
| `InversionCounts.StrictCount` | algorithm/sort/count_inversion.h:16-18 | the count of strict inversions the comment promises is returned exactly for sequences without equal elements |
| `InversionCounts.EqualPairCounted` | algorithm/sort/count_inversion.h:16-18 | on the sequence 1, 1 one pair is counted and none is strictly out of order |
| `InversionCounts.InversionsOfHalves` | algorithm/sort/count_inversion.h:35-51 | pairs within the halves and across them add up, and sorting the halves does not change the latter |
| `InversionCounts.CrossesRest` | algorithm/sort/count_inversion.h:41-48 | an element taken from the right half crosses exactly what is left of the left half |
| `NextPermutations.NextPermutation` | algorithm/search/next.cpp:24-48 | true exactly when a greater rearrangement exists, and then the result is the next one, duplicates allowed; otherwise the array is left ascending |
| `NextPermutations.SteppedIsSuccessor` | algorithm/search/next.cpp:36-46 | after exchange and reversal no rearrangement lies strictly between |
| `NextPermutations.NoneGreater` | algorithm/search/next.cpp:26-35 | a descending sequence is the greatest rearrangement |
| `NextCombinations.NextCombination` | algorithm/search/next.cpp:11-22 | true exactly when a greater r-subset of 0..n-1 exists, and then the result is the next one; otherwise the array is unchanged |
| `NextCombinations.SteppedIsSuccessor` | algorithm/search/next.cpp:17-21 | raising one element and packing the rest skips no combination |
| `NextCombinations.NoneGreater` | algorithm/search/next.cpp:12-16 | when all elements are at their limits no combination is greater |
| `LexicographicOrder.Between` | algorithm/search/next.cpp:11-48 | a sequence between two others agrees with them up to their first difference |
| `BinaryHeaps.BinaryHeap.Add` | algorithm/data_structure/binary_heap.h:110-118 | adds the value and keeps the heap order; a full array is doubled and any other keeps its size |
| `BinaryHeaps.BinaryHeap.Extract` | algorithm/data_structure/binary_heap.h:121-133 | an empty heap is reported; otherwise the value removed was in the heap and is at least every value in it for a max-heap, at most every value for a min-heap |
| `BinaryHeaps.BinaryHeap.Modify` | algorithm/data_structure/binary_heap.h:136-142 | replaces one value and restores the heap order, whichever way it has to move |
| `BinaryHeaps.BinaryHeap.ShiftUp` | algorithm/data_structure/binary_heap.h:185-252 | the hole moves up until the order holds, if only that place was out of order, and nothing moves if it need not |
| `BinaryHeaps.BinaryHeap.ShiftDown` | algorithm/data_structure/binary_heap.h:198-272 | the hole moves down until the order holds for all parents counted |
| `BinaryHeaps.BinaryHeap.FromItems` | algorithm/data_structure/binary_heap.h:175-239 | builds a heap of exactly the items bottom up |
| `BinaryHeaps.BinaryHeap.Expand` | algorithm/data_structure/binary_heap.h:145-158 | doubles the capacity and keeps the contents |
| `HeapOrder.UpStep` | algorithm/data_structure/binary_heap.h:185-195 | one step up keeps every other place in order |
| `HeapOrder.DownStep` | algorithm/data_structure/binary_heap.h:198-215 | one step down keeps every other place in order |
| `HeapOrder.Changed` | algorithm/data_structure/binary_heap.h:136-142 | a changed place can be out of order in one direction only |
| `HeapOrder.RootFirst` | algorithm/data_structure/binary_heap.h:39-41 | nothing belongs above the root |
| `RunningStatistics.RunningK.Add` | common/util/running_statistic.h:58-98 | after every value the heap holds as many values of the stream as there are, up to k, and every value of the stream it does not hold is at least every value it holds when the heap is a max-heap, at most when it is a min-heap |
| `BestValues.KeptUnique` | common/util/running_statistic.h:58-116 | there is only one such selection |
| `BestValues.KeptMeans` | common/util/running_statistic.h:58-116 | the selection is contained in the stream, has the smaller of k and the length of the stream as its size, and no value left out is better than one kept, in terms of <= and >= |
| `BestValues.KeptReplace` | common/util/running_statistic.h:61-97 | replacing the root by a better value keeps the selection |
| `BestValues.KeptIgnore` | common/util/running_statistic.h:61-97 | a value no better than the root is rightly ignored |
| `TriangularIndex.DecodeEncode` | recsys/neighbor/item_based_model_computation.cpp:256-257 | the closed form yields a pair below the diagonal whose number is the task |
| `TriangularIndex.EncodeDecode` | recsys/neighbor/item_based_model_computation.cpp:256-257 | every pair below the diagonal is decoded from its number |
| `TriangularIndex.InRange` | recsys/neighbor/item_based_model_computation.cpp:241-262 | the tasks of n items are exactly the pairs of n items |
| `TriangularIndex.RowBounds` | recsys/neighbor/item_based_model_computation.cpp:256 | the row found with the integer square root is the one the task falls into |
| `StaticSchedules.RangesPartition` | recsys/neighbor/item_based_model_computation.cpp:241-247 | every task is in the range of exactly one thread |
| `StaticSchedules.RangeSizes` | recsys/neighbor/item_based_model_computation.cpp:241-247 | every thread gets the quotient of tasks and threads, and the last one the remainder as well |
| `StaticSchedules.StepKeeps` | recsys/neighbor/item_based_model_computation.cpp:254-262 | in every interleaving a cell has its similarity exactly when its task is done, and no other cell is written |
| `StaticSchedules.AllTasksDone` | recsys/neighbor/item_based_model_computation.cpp:233-252 | whatever the interleaving, when all threads have ended every pair has its similarity |
| `StaticSchedules.StepExists` | recsys/neighbor/item_based_model_computation.cpp:254-262 | a thread with tasks left can always take a step |
| `ItemBasedModels.ModelComputation.ThreadRun` | recsys/neighbor/item_based_model_computation.cpp:254-263 | writes the similarity of exactly the pairs of its range and leaves every other cell, the diagonal among them, alone |
| `ItemBasedModels.ModelComputation.ComputeModelStatic` | recsys/neighbor/item_based_model_computation.cpp:233-252 | with the threads run one after the other the ranges computed in the loop cover the table, and with a symmetric similarity the result is the single-threaded table |
| `ItemBasedModels.ModelComputation.ComputeModel` | recsys/neighbor/item_based_model_computation.cpp:143-157 | the table in which every pair below the diagonal has its similarity computed with the smaller item first, and nothing else has changed |
| `ItemBasedModels.SameAsSingleThread` | recsys/neighbor/item_based_model_computation.cpp:143-263 | whatever the number of threads and their interleaving, a finished run of the static schedule leaves the single-threaded table, for all three similarities |
| `StaticSchedules.FinishedTable` | recsys/neighbor/item_based_model_computation.cpp:233-263 | every interleaving ends with the single-threaded table when the similarity is symmetric |
| `Similarities.Symmetric` | recsys/neighbor/item_based_model_computation.cpp:25-141 | each similarity is the same for both orders of its items, whatever the rounding, as long as products commute |
| `Similarities.MeetSwapped` | recsys/neighbor/item_based_model_computation.cpp:54-76 | the merge of the swapped lists finds the same pairs, swapped |
| `Similarities.MeetIsCommon` | recsys/neighbor/item_based_model_computation.cpp:54-76 | two ratings meet in the merge of sorted lists exactly when they are by the same user |
| `Similarities.MeetCountsCommon` | recsys/neighbor/item_based_model_computation.cpp:92-108 | as many ratings meet as there are users in both lists |
| `Similarities.BinaryFormulas` | recsys/neighbor/item_based_model_computation.cpp:81-141 | for sorted lists the binary cosine is the number of common users over the root of the product of the sizes, and the binary Jaccard similarity that number over the number of users in either list |
| `Similarities.MomentsOverCommon` | recsys/neighbor/item_based_model_computation.cpp:39-79 | for sorted lists, and exact sums, the three sums run over the common users: of the products of their ratings and of the squares on each side |
| `Similarities.CosineFormula` | recsys/neighbor/item_based_model_computation.cpp:39-79 | so without rounding the cosine times its denominator, the root of the product of the two sums of squares plus the small constant of the code, is the sum of products over the common users |
| `Similarities.ComputeCosineSimilarity` | recsys/neighbor/item_based_model_computation.cpp:39-79 | the loop adds up the products over the ratings that meet, with the norms over those only, and yields zero for an empty list |
| `Similarities.CountCommon` | recsys/neighbor/item_based_model_computation.cpp:88-108 | the loop counts the ratings that meet |
| `Similarities.ComputeBinaryCosineSimilarity` | recsys/neighbor/item_based_model_computation.cpp:81-110 | the number of ratings that meet over the square root of the product of both sizes |
| `Similarities.ComputeBinaryJaccardSimilarity` | recsys/neighbor/item_based_model_computation.cpp:112-141 | the number of ratings that meet over the number of users in either list |
| `Similarities.ComputeSimilarity` | recsys/neighbor/item_based_model_computation.cpp:25-37 | cosine, binary cosine or binary Jaccard as the parameter names, and zero for a binary type without one |
| `ItemBasedModels.SimilarityMatrix.Put` | recsys/base/similarity_matrix.h:17-23 | afterwards Get returns the value for the pair in either order and what it did before for every other pair |
| `StaticSchedules.CellAfterPut` | recsys/base/similarity_matrix.h:17-30 | what is put for a pair is read for it in either order, and no other pair changes |

## Left out

- Bipartite graphs and weighted graphs are values: their `AddEdge`, `AddWeight` and `GetWeight` storage is not modelled, nor are the null `maxMatch` pointer and the `maxMatch` argument the unweighted matcher never fills.
- Fixed-width overflow, among it infinity minus a negative weight in Bellman-Ford and in the slacks of the matcher: integers are unbounded.
- `std::sort`, `std::reverse` and shuffling: the sort of matched pairs and the reversal of the Euler path are stand-ins, the random choice of a block may be any choice.
- SgdSchedule: the grid of the option and of the data have the same number of item blocks, as the loader makes them; the sleep between unsuccessful scans is not modelled.
- SgdBlocks.PlaceRatings: takes the ratings after the user and item id mappings have been applied, as a sequence instead of a file.
- Single-threaded training, losses, monitor tasks and their switch: exclusivity is stated with monitoring off.
- SgdSchedule.Serialisable: a rating's update is one step, because the blocks in flight share no cell, and a flag is read or cleared in one step; only the choice of a block sets both its flags at once, under the lock that keeps the consumer out and while nobody scans. The two buffers of capacity one appear as stages of a block.
- SgdProgress.EveryRunCanEnd, PipelineProgress.EveryRunCanFinish: every run can be brought to its end; that a given schedule gets there would need an assumption that it lets every thread run again and again, which is not made.
- Pipelines.PipelineSafety: what a task holds is not part of a step; EvaluationRuns adds it for the evaluation. Thread creation, joining and the monitor thread are outside.
- EvaluationRuns.MatchesSingleThread: scoring one task is one step of its worker, and adding one task is one step of the consumer, since nobody else holds the bundle; the ranked and rated items of a user are data, however they were predicted.
- PipelinedSchedulers.PipelinedScheduler.WorkerDone: the method takes both turns at once; Pipelines has them as two steps with other threads in between.
- ObjectBuffer: a negative maximum size, which the unsigned comparison would read as huge, and the name of the buffer.
- BufferTurns.ProducersStayAwake: does not cover Clear, which frees slots without notifying; NoLostWakeup allows it while no push is pending, ClearStrands shows a run in which it leaves a producer asleep until somebody else helps or it wakes up by itself, and ClearStrandsWhen says when that happens.
- AesCryptions.AESCryption.Decrypt: requires a length of 32 n + 1, since the code reads past the end of any other text; characters are taken by their code, so what a negative `char` would give is not modelled. States are kept by row and column, not as raw bytes.
- QuickSort, CountInversion, Next, BinaryHeap: the overloads with a comparator; the element type is `int` with its own order. Arrays of `NextPermutation` and `NextCombination` have exactly the length given.
- CountInversions.CountInversion.MergeSort: the two recursive calls run in the order written, which the code leaves open; their ranges are disjoint.
- BinaryHeap: one class with a direction stands for the max-heap and the min-heap, whose bodies mirror each other; allocator calls and moves are not modelled, and the capacity is positive because doubling zero makes no room. RunningK likewise stands for RunningMinK and RunningMaxK; the sorted copies they hand out are left out.
- ItemBasedModels: the rating adjustment done before either computation, and rounding in the square root of the decode, which uses the exact integer root.
- Similarities.CountCommon: the loop that both binary similarities write out is one method here.
- EvaluateRanking: the final divisions of the three counters into precision, recall and F1.
- The pipelined item-based computation, which differs from the evaluation only in its payload.
- File, stream and JSON input and output, logging, OpenCV, neural networks, random number generation, string and time utilities: plumbing or foreign code.
- Stack, queue, greatest common divisor, bubble and shell sort, Dijkstra, fast power, big decimals, the other running statistics: easier cousins of what is modelled.
- Rectangle union area and the preferred-size allocator.
