# Supply-chain graph core, modelled in Dafny

This project models the four algorithms of `task1_supply_chain_graph`:

- **The transaction statistics aggregator** (`statistics.py`). It folds a list of transactions into three structures: one overall running-statistics record, a record per flow id, and an (exported, imported) pair of records per company. Each record holds quantity, total, average, max and min.
  - A flow id such as `A_B` names a sender and a receiver. `flow_id_to_company_ids` splits it on every `_`.
  - `update_statistics` changes a record in place. It is modelled as the class `TransactionStatistics` with a `Update` method. The same update is also given as a function on record values, `UpdateStatistics`.
  - The aggregate (`CalculateStatistics`) keeps its records as values inside maps. It is proved to return, for every flow and every company, exactly the statistics of the order values that the flow or company took part in.
- **The hand-written Dijkstra search** (`task3.py`). It uses a heap of `(distance, node)` tuples, a distance table and a predecessor table, skips stale heap entries, raises `GraphPathNotFound`, and rebuilds the path by following predecessors and reversing.
  - The model succeeds exactly when the target is reachable. It returns a walk from source to target, its weight, and proves that no walk weighs less.
- **Leaf discovery by BFS or DFS** (`task2.py`). One loop over a deque of `(node, path so far)` items, popped from the front (BFS) or the back (DFS).
  - Both orders are proved to return exactly the out-degree-0 nodes reachable in one or more steps. Each comes with a walk from the start node.
  - So the leaf-set warning of `find_related_leafs_compare` can never fire. Only its path comparison can differ.
- **The row reducer** (`csv_utils.py`). A filtered per-key counter.
  - A row is kept exactly when it passes the filter and its occurrence number `k` for its key satisfies `2 <= k < limit`.
  - The first row of each key only primes the counter.

Modelling choices:

- The graph is an adjacency map from node to its out-edges in insertion order. Each edge has an optional `nat` weight, read as 1 when absent. `Graphs.Valid` states what a networkx `DiGraph` guarantees: targets are nodes, and there is at most one edge per target.
- Order values are `int`. Totals are exact. The average is a `real`. `min_value` starts as `+inf` (`Extended.PosInfinity`). `max_value` starts at 0, as in `models/statistics_data.py`, so a record that has only seen negative values reports a max of 0.
- Heap entries compare as Python tuples: by distance, then by node id in lexicographic order. `HeapPop` extracts a least entry from a sequence used as a multiset.
- Raised exceptions become `Result.Err` values:
  - `ValueError` from a flow id without `_` becomes `InvalidFlowId(flowId)`;
  - `GraphPathNotFound` becomes `GraphPathNotFound(source, target)`;
  - the invalid-search-method `ValueError` becomes `InvalidSearchMethod`.

  A search method that is not a `GraphSearchMethod` member is the argument `SearchArgument.NonMember`.
- `statistics.py` subscripts the record classes of `models/statistics_data.py` as if they were dictionaries (`results['global_statistics']`, `stats['quantity']`). These classes define only class-level annotations and defaults, so the code as written fails on the first transaction. The model follows the evidently intended map-of-records semantics. The docstring of `flow_id_to_company_ids` speaks of removing the last four characters, while the code splits on `_`. The model follows the code.

## Model

| member | source | states |
|---|---|---|
| Graphs.Neighbors | task1_supply_chain_graph/task3.py:19 | `G.neighbors(u)` lists the targets of u's out-edges in insertion order; in a DiGraph every listed successor is a node of the graph and none is listed twice |
| Graphs.OutDegree | task1_supply_chain_graph/task2.py:25 | `G.out_degree(u)` is zero exactly when u has no out-edge (the leaf test) |
| Graphs.WeightOf | task1_supply_chain_graph/task3.py:20 | definition: an edge record's `weight` attribute, or 1 when it is absent (the `.get('weight', 1)` default) |
| Graphs.EdgeWeight | task1_supply_chain_graph/task3.py:20 | the weight read for u -> v is that of the first out-edge record of u that targets v |
| Graphs.EdgeWeightAt | task1_supply_chain_graph/task3.py:20 | the weight read for edge u -> v is the `weight` attribute of the single edge record of u that targets v, or 1 when the attribute is absent |
| Graphs.WalkNodes | task1_supply_chain_graph/task3.py:19 | every node of a walk is a node of the graph |
| Graphs.PrefixWeight | task1_supply_chain_graph/task3.py:19-21 | a prefix of a walk is a walk, and it weighs no more than the whole walk (weights are non-negative) |
| Graphs.PrependWeight | task1_supply_chain_graph/task3.py:21 | putting the edge u -> p[0] in front of a walk p gives a walk whose weight is that edge's weight plus p's weight |
| ShortestPath.Below | task1_supply_chain_graph/task3.py:23 | definition: the relaxation test `distance < distances[neighbor]`, with every number below infinity |
| ShortestPath.Exceeds | task1_supply_chain_graph/task3.py:16 | definition: the stale-entry test `current_distance > distances[current_node]`, with nothing above infinity |
| ShortestPath.StrLess | task1_supply_chain_graph/task3.py:14 | definition: Python's order on strings, lexicographic by code point, which breaks distance ties in `heapq.heappop` |
| ShortestPath.EntryLess | task1_supply_chain_graph/task3.py:14 | definition: Python's order on (distance, node) tuples, distance first and ties by node, as `heapq.heappop` compares them |
| ShortestPath.StrLessIrreflexive | task1_supply_chain_graph/task3.py:14 | no node id is less than itself under Python string order |
| ShortestPath.StrLessTransitive | task1_supply_chain_graph/task3.py:14 | Python string order is transitive |
| ShortestPath.EntryLessTransitive | task1_supply_chain_graph/task3.py:14 | tuple order on (distance, node) heap entries is transitive |
| ShortestPath.SmallestIndex | task1_supply_chain_graph/task3.py:14 | finds an index of a least entry: no entry of the heap is smaller |
| ShortestPath.RemoveAt | task1_supply_chain_graph/task3.py:14 | removing position k removes exactly one copy of that entry and keeps every other entry |
| ShortestPath.HeapPop | task1_supply_chain_graph/task3.py:14 | `heappop` returns an entry of the heap that no entry is smaller than, and leaves the multiset of the rest with exactly one copy of it removed |
| ShortestPath.Reversed | task1_supply_chain_graph/task3.py:36 | `path.reverse()`: same length, element i is element n-1-i of the input |
| ShortestPath.StepFromSettled | task1_supply_chain_graph/task3.py:19-26 | when a walk from the source ends with an edge out of a settled node, its end has a finite distance no greater than the walk's weight |
| ShortestPath.FirstOpen | task1_supply_chain_graph/task3.py:13-26 | a walk from the source that reaches an unsettled node has a first unsettled node, whose recorded distance is at most the weight of the walk's prefix up to it |
| ShortestPath.SettleOptimal | task1_supply_chain_graph/task3.py:14-17 | a least heap entry for an unsettled node carries a distance no greater than the weight of any walk from the source to that node |
| ShortestPath.ReachedIsSettled | task1_supply_chain_graph/task3.py:13 | when the heap is empty, every node reachable from the source has been settled |
| ShortestPath.SearchStart | task1_supply_chain_graph/task3.py:7-11 | the initial heap `[(0, source)]`, distances `inf` except 0 at the source, and all predecessors None satisfy the search invariant |
| ShortestPath.SkipStale | task1_supply_chain_graph/task3.py:16-17 | popping an entry whose distance exceeds the recorded one, and doing nothing else, keeps the search invariant |
| ShortestPath.Settle | task1_supply_chain_graph/task3.py:14-17 | popping a current least entry settles its node at an optimal distance and starts its relaxation loop |
| ShortestPath.RelaxQueue | task1_supply_chain_graph/task3.py:23-26 | lowering a neighbour's distance and pushing `(distance, neighbor)` keeps the heap invariants: entries are sound, current entries are unique and present, settled nodes are untouched |
| ShortestPath.RelaxTables | task1_supply_chain_graph/task3.py:21-25 | after the update, edge j of u is relaxed, and settled distances stay optimal |
| ShortestPath.RelaxPredecessors | task1_supply_chain_graph/task3.py:24-25 | setting `previous_nodes[neighbor] = u` keeps every predecessor a settled node, settled earlier, whose edge accounts for the distance |
| ShortestPath.NoImprovement | task1_supply_chain_graph/task3.py:23 | an edge whose candidate distance is not smaller is already relaxed |
| ShortestPath.LoweredStep | task1_supply_chain_graph/task3.py:23-25 | one more update through u keeps every distance either unchanged with its predecessor, or strictly lower with predecessor u |
| ShortestPath.ExpandNode | task1_supply_chain_graph/task3.py:19-26 | relaxing all out-edges of the node just settled restores the search invariant; every distance either stays with its predecessor or strictly decreases with the settled node as its new predecessor |
| ShortestPath.SearchStep | task1_supply_chain_graph/task3.py:13-26 | one iteration keeps the invariant, and either settles a new node or shrinks the heap; a stale pop leaves both tables unchanged; a settling pop adds exactly one unsettled node u to the settled set and only lowers distances, each lowered entry getting u as its predecessor |
| ShortestPath.ComputeDistances | task1_supply_chain_graph/task3.py:7-26 | the main loop ends with an empty heap, settled distances optimal, all settled edges relaxed, and a consistent predecessor table whose source entry is None with distance 0 |
| ShortestPath.TraceStep | task1_supply_chain_graph/task3.py:33-35 | one turn of the predecessor loop: the reversed list, extended by the current node, is still a walk to the target and its weight plus the current node's distance stays within the target's distance |
| ShortestPath.ReconstructPath | task1_supply_chain_graph/task3.py:28-36 | following predecessors back from a settled target reaches the source; the reversed list is a walk from source to target weighing at most the target's distance, and it is `[source]` when source == target |
| ShortestPath.DijkstraShortestPath | task1_supply_chain_graph/task3.py:6-38 | Ok exactly when the target is reachable; otherwise `GraphPathNotFound(source, target)`. On Ok, the path is a walk from source to target, the returned weight is its weight, and no walk from source to target weighs less. source == target gives `([source], 0)` |
| LeafSearch.Successors | task1_supply_chain_graph/task2.py:12 | the items queued for a node: one per out-neighbour, in order, each carrying the path so far; the ids queued are exactly the node's out-neighbours |
| LeafSearch.SuccessorsOk | task1_supply_chain_graph/task2.py:28-29 | each queued item's path plus its id is a walk from the start node, and every out-neighbour is queued |
| LeafSearch.PopFrontOk | task1_supply_chain_graph/task2.py:15-16 | `popleft` takes a well-formed item and leaves a well-formed frontier, losing no other id |
| LeafSearch.PopBackOk | task1_supply_chain_graph/task2.py:17-18 | `pop` takes a well-formed item and leaves a well-formed frontier, losing no other id |
| LeafSearch.IdsAppend | task1_supply_chain_graph/task2.py:29 | appending to the frontier adds exactly the appended ids |
| LeafSearch.ReachedIsVisited | task1_supply_chain_graph/task2.py:22-29 | once the frontier is empty, every node on a walk from the start node has been visited |
| LeafSearch.LeavesStart | task1_supply_chain_graph/task2.py:12 | a walk of two or more nodes from the start means the start has out-neighbours |
| LeafSearch.WalkReaches | task1_supply_chain_graph/task2.py:26 | a queued item's id is reachable from the start, in one or more steps |
| LeafSearch.SinkHasNoLeaves | task1_supply_chain_graph/task2.py:12-14 | a start node without out-neighbours has no related leaves |
| LeafSearch.VisitOk | task1_supply_chain_graph/task2.py:24-26 | visiting an unvisited item records it as processed, and as a leaf with path + [id] exactly when its out-degree is 0 |
| LeafSearch.PushedOk | task1_supply_chain_graph/task2.py:27-29 | pushing the neighbours of a visited inner node keeps the frontier well formed and closed under edges |
| LeafSearch.SinkOk | task1_supply_chain_graph/task2.py:25-26 | visiting a sink keeps the frontier closed under edges |
| LeafSearch.SkipOk | task1_supply_chain_graph/task2.py:22-23 | skipping an already visited item keeps the frontier closed under edges |
| LeafSearch.FinishedLeaves | task1_supply_chain_graph/task2.py:14-30 | when the frontier is empty, the result's keys are exactly the reachable out-degree-0 nodes, and the processed nodes are exactly the nodes other than the start reachable from it |
| LeafSearch.NextOtherIsFirstVisit | task1_supply_chain_graph/task2.py:15-18 | the first non-start id that popleft (BFS) or pop (DFS) takes from the initial deque is the first (BFS) or last (DFS) out-neighbour of the start other than the start |
| LeafSearch.FirstSkip | task1_supply_chain_graph/task2.py:21-23 | before any node is visited, a popped visited id can only be the start, and skipping it leaves the next non-start id to pop unchanged |
| LeafSearch.FirstVisited | task1_supply_chain_graph/task2.py:21-24 | the first node visited is the first non-start id the order pops from the initial deque |
| LeafSearch.PushNeighbors | task1_supply_chain_graph/task2.py:28-29 | appends one item per out-neighbour, carrying `path + [current]` |
| LeafSearch.FindRelatedLeafs | task1_supply_chain_graph/task2.py:9-30 | Err exactly when the method is not BFS or DFS and the frontier starts non-empty. On Ok: the keys are exactly the out-degree-0 nodes reachable in one or more steps, never the start node; each path is a walk from the start node to its leaf; no node is processed twice; the processed nodes are exactly the nodes other than the start reachable from it; a sink start gives `{}`; with BFS the first node processed is the first out-neighbour of the start other than the start itself, with DFS the last one |
| LeafSearch.ComparePaths | task1_supply_chain_graph/task2.py:50-59 | the mismatched leaves are exactly those present in both results with different paths; `all_matched` holds exactly when there are none |
| LeafSearch.FindRelatedLeafsCompare | task1_supply_chain_graph/task2.py:32-59 | the BFS and DFS results both have the reachable-leaf set as keys, and each of their paths is a walk from the start to its leaf, so the count warning is never raised; path mismatches are reported as `ComparePaths` states |
| RowReducer.KeptIndices | task1_supply_chain_graph/csv_utils.py:9-20 | the indices of the surviving rows, strictly increasing, each kept exactly when it passes the filter and its occurrence number k has 2 <= k < limit |
| RowReducer.MissingFlowId | task1_supply_chain_graph/csv_utils.py:26 | definition: the filter lambda, true when any of the three flow ids is empty |
| RowReducer.FlowCombination | task1_supply_chain_graph/csv_utils.py:27 | definition: the combination lambda, the (supplier, internal, customer) flow-id triple |
| RowReducer.CountKeyStep | task1_supply_chain_graph/csv_utils.py:10-18 | a filtered row leaves every count unchanged; otherwise it adds one to the count of its own key only |
| RowReducer.SelectAppend | task1_supply_chain_graph/csv_utils.py:20 | keeping one more row appends it to the output |
| RowReducer.ReduceRows | task1_supply_chain_graph/csv_utils.py:3-22 | the output is the order-preserving subsequence of the kept rows, and no row the filter rejects appears. The loop invariant keeps each key's counter equal to the number of unfiltered rows with that key so far |
| RowReducer.OccurrencesAppend | task1_supply_chain_graph/csv_utils.py:20 | appending a row adds one to the count of its key only |
| RowReducer.QuotaStep | task1_supply_chain_graph/csv_utils.py:16-20 | one more row of a key is kept exactly when its occurrence number is in `[2, limit)` |
| RowReducer.KeptPerKey | task1_supply_chain_graph/csv_utils.py:13-20 | per key, the output holds min(count, limit - 1) - 1 rows (at least 0), where count is that key's unfiltered row count |
| RowReducer.KeptPerKeyStep | task1_supply_chain_graph/csv_utils.py:13-20 | the per-key output count follows the quota row by row |
| RowReducer.AtMostQuotaPerKey | task1_supply_chain_graph/csv_utils.py:16-20 | at most max(0, limit - 2) rows per key survive |
| RowReducer.FirstOccurrenceDropped | task1_supply_chain_graph/csv_utils.py:13-15 | the first unfiltered row of each key is never kept |
| RowReducer.SmallLimitKeepsNothing | task1_supply_chain_graph/csv_utils.py:19 | a limit of 2 or less keeps no row |
| RowReducer.ReduceTransactionRows | task1_supply_chain_graph/csv_utils.py:25-27 | with the caller's filter `MissingFlowId`, key `FlowCombination` and limit `CombinationLimit` = 5: the output is the reduction; no kept row has an empty flow id; at most 3 rows survive per (supplier, internal, customer) triple |
| Statistics.Split | task1_supply_chain_graph/statistics.py:39 | `s.split('_')` has one more piece than there are separators, and no piece contains the separator |
| Statistics.JoinSplit | task1_supply_chain_graph/statistics.py:39 | joining the pieces with the separator gives back the string |
| Statistics.SplitPrefix | task1_supply_chain_graph/statistics.py:39 | splitting a + t, with a separator-free, glues a to the first piece of t |
| Statistics.SplitJoin | task1_supply_chain_graph/statistics.py:39 | splitting the join of separator-free pieces gives back the pieces |
| Statistics.FlowIdToCompanyIds | task1_supply_chain_graph/statistics.py:37-43 | Ok exactly when the flow id contains `_`, otherwise `InvalidFlowId(flowId)`; sender and receiver contain no `_` |
| Statistics.Senders | task1_supply_chain_graph/statistics.py:14 | definition: the `sender` of each parsed leg, in leg order |
| Statistics.Receivers | task1_supply_chain_graph/statistics.py:15 | definition: the `receiver` of each parsed leg, in leg order |
| Statistics.FlowIdLayout | task1_supply_chain_graph/statistics.py:39-43 | `sender + "_" + receiver` is a prefix of the flow id, followed by its end or another `_`: later pieces are ignored |
| Statistics.FlowIdRoundTrip | task1_supply_chain_graph/statistics.py:37-43 | `sender_receiver` with `_`-free parts parses back to (sender, receiver) |
| Statistics.MinWith | task1_supply_chain_graph/statistics.py:50 | `min(min_value, value)` with +inf as the unit: finite, at most both, and equal to one of them |
| Statistics.MaxFrom | task1_supply_chain_graph/statistics.py:49 | max of 0 (models/statistics_data.py:7) and the values: at least 0 and every value, and equal to 0 or one of them |
| Statistics.MinOf | task1_supply_chain_graph/statistics.py:50 | +inf exactly for no values; otherwise one of the values, and at most every value |
| Statistics.SumBounds | task1_supply_chain_graph/statistics.py:48 | values between lo and hi sum to between n*lo and n*hi |
| Statistics.Average | task1_supply_chain_graph/statistics.py:51 | definition: `total / quantity if quantity > 0 else 0.0`, as an exact real |
| Statistics.UpdateStatistics | task1_supply_chain_graph/statistics.py:45-51 | definition: `update_statistics` on record values; what it does is stated by `UpdateStatisticsMeaning` below |
| Statistics.UpdateStatisticsMeaning | task1_supply_chain_graph/statistics.py:45-51 | one update adds 1 to quantity and the value to total; max becomes max(old, value); min becomes min(old, value) and is finite; average is the new total over the new quantity |
| Statistics.TransactionStatistics.constructor | task1_supply_chain_graph/models/statistics_data.py:3-8 | a fresh record: quantity 0, total 0, average 0, max 0, min +inf, with no values seen |
| Statistics.TransactionStatistics.Update | task1_supply_chain_graph/statistics.py:45-51 | updates the record in place as `UpdateStatistics` says; if the record held the statistics of the values seen so far, it then holds those of the values plus this one |
| Statistics.FoldIsStatistics | task1_supply_chain_graph/statistics.py:45-51 | updating a fresh record with values v1..vn gives quantity n, total the sum, average sum/n (0 for none), max of 0 and the values, and min of the values |
| Statistics.FoldAppend | task1_supply_chain_graph/statistics.py:45-51 | updating with a and then with b is updating with a + b |
| Statistics.StatsStep | task1_supply_chain_graph/statistics.py:45-51 | the statistics of vs + [v] are one update of the statistics of vs |
| Statistics.MeanBetween | task1_supply_chain_graph/statistics.py:51 | a total between n*lo and n*hi gives an average between lo and hi |
| Statistics.RecordBounds | task1_supply_chain_graph/statistics.py:49-51 | a record of one or more values has average = total / quantity, min <= every value <= max, and min <= average <= max |
| Statistics.ParseAll | task1_supply_chain_graph/statistics.py:13 | the comprehension succeeds exactly when every flow id contains `_`, and then parses each flow id in place |
| Statistics.ParseAllError | task1_supply_chain_graph/statistics.py:13 | on failure the error names the first flow id without `_` |
| Statistics.FirstErrorNone | task1_supply_chain_graph/statistics.py:7-13 | no transaction raises exactly when every leg of every transaction contains `_` |
| Statistics.FirstErrorAt | task1_supply_chain_graph/statistics.py:7-13 | the error raised is that of the first transaction with a malformed leg |
| Statistics.Count | task1_supply_chain_graph/statistics.py:21 | the number of occurrences of an element (a flow or company id, or the `_` separator in a flow id): positive exactly when it occurs, and at most the length |
| Statistics.Repeat | task1_supply_chain_graph/statistics.py:21-24 | n copies of a value |
| Statistics.FlowKeysSeries | task1_supply_chain_graph/statistics.py:21-23 | a flow has values exactly when it is a leg of some transaction |
| Statistics.CompanyKeysSeries | task1_supply_chain_graph/statistics.py:27-29 | a company has values exactly when it is the sender or the receiver of some leg |
| Statistics.CountSnoc | task1_supply_chain_graph/statistics.py:21-24 | one more id in the list adds one to its own count and leaves every other count unchanged |
| Statistics.CountAppend | task1_supply_chain_graph/statistics.py:21 | occurrences in a + b are those in a plus those in b |
| Statistics.FlowSeriesLength | task1_supply_chain_graph/statistics.py:12-24 | a flow record takes one value per leg with its id, so an id in two legs of one transaction counts twice |
| Statistics.ExportSeriesLength | task1_supply_chain_graph/statistics.py:14-31 | a company's exported record takes one value per leg it sends |
| Statistics.ImportSeriesLength | task1_supply_chain_graph/statistics.py:15-33 | a company's imported record takes one value per leg it receives |
| Statistics.UpdatedTimesFold | task1_supply_chain_graph/statistics.py:24 | updating a record n times with a value is updating it with n copies of that value |
| Statistics.FlowsTakenStep | task1_supply_chain_graph/statistics.py:21-24 | one more flow id of the list keeps the per-flow loop invariant |
| Statistics.FlowTakenAt | task1_supply_chain_graph/statistics.py:22-24 | one flow record after one more id: its own record takes the value once more, created fresh on first sight; other records are unchanged |
| Statistics.CreateThenUpdate | task1_supply_chain_graph/statistics.py:22-24 | creating a missing record and then updating it is updating a fresh record |
| Statistics.UpdateFlows | task1_supply_chain_graph/statistics.py:21-24 | the flow map gains the new ids. Each record takes the value once per occurrence of its id in the list; records of new ids start fresh |
| Statistics.AddCompanies | task1_supply_chain_graph/statistics.py:27-29 | every listed company gets a record pair, fresh if new; existing pairs are untouched |
| Statistics.ExportedTakenStep | task1_supply_chain_graph/statistics.py:30-31 | one more sender keeps the exported-update loop invariant |
| Statistics.UpdateExported | task1_supply_chain_graph/statistics.py:30-31 | each company's exported record takes the value once per leg it sends; imported records and keys are unchanged |
| Statistics.ImportedTakenStep | task1_supply_chain_graph/statistics.py:32-33 | one more receiver keeps the imported-update loop invariant |
| Statistics.UpdateImported | task1_supply_chain_graph/statistics.py:32-33 | each company's imported record takes the value once per leg it receives; exported records and keys are unchanged |
| Statistics.GlobalStep | task1_supply_chain_graph/statistics.py:8-18 | the overall record takes each transaction's value once, not once per leg |
| Statistics.FlowsStep | task1_supply_chain_graph/statistics.py:21-24 | after a transaction's flow loop, the flow map summarises the transactions so far |
| Statistics.CompaniesStep | task1_supply_chain_graph/statistics.py:27-33 | after a transaction's company loops, the company map summarises the transactions so far |
| Statistics.WellFormedStep | task1_supply_chain_graph/statistics.py:13 | a transaction that parses extends the well-formed prefix |
| Statistics.TransactionStep | task1_supply_chain_graph/statistics.py:7-33 | one transaction's updates take a summary of the transactions before it to a summary that includes it |
| Statistics.CalculateStatistics | task1_supply_chain_graph/statistics.py:3-35 | Err exactly when some leg has no `_`, with the first such error and no partial result. On Ok: the overall record holds the statistics of all order values, so its quantity is the number of transactions and its total their sum. Flow keys are exactly the legs, each holding the statistics of one value per leg with its id. Company keys are exactly the senders and receivers, with exported (imported) holding one value per leg sent (received) |

## Left out

- Loading CSV and JSON files (`csv_loader.py`, `scv_loader.py`), building the networkx graph (`graph_builder.py`), plotting (`visualizer.py`, `draw_with_matplotlib.py`), the interactive menu (`supply_chain_app.py`) and `main.py` are not part of this model. They are I/O, third-party wiring and console text.
- The duplicate `reduce_rows` in `csv_loader.py` is not part of this model. It builds its counter with `dict(tuple, int)`, which fails, and the `csv_utils.py` version is the one modelled.
- The CSV file written by `write_reduced_transactions_to_csv` and every `print` of `find_related_leafs_compare` are left out. The comparison is returned as a `Comparison` value: the mismatched leaf ids, the count-warning flag and `all_matched`.
- Floating point: order values are `int`, the average is an exact `real`, and edge weights are `nat`. Rounding and float comparisons are not modelled.
- Statistics.CalculateStatistics: records are held as values in its maps, not as shared objects updated in place. In the source each map slot gets its own fresh record, so nothing is aliased.
- Statistics.TransactionStatistics.Update: it models the in-place update of one record object. The aggregate uses the equivalent function `UpdateStatistics` on values.
- Statistics.CalculateStatistics: the map insertion order, which Python dictionaries keep, is not modelled.
- ShortestPath.DijkstraShortestPath and LeafSearch.FindRelatedLeafs: both require a valid graph that contains the start node (and, for Dijkstra, the target). With a missing node networkx raises a `KeyError` or `NetworkXError`, which is not modelled.
- ShortestPath.ReconstructPath: it states that the rebuilt path weighs at most the target's distance. Equality with the returned distance follows in DijkstraShortestPath from optimality.
- LeafSearch.FindRelatedLeafs: beyond the first node processed, the contract does not say which walk each order records for a leaf (for instance that BFS records one with the fewest edges). It states only that each recorded path is a walk from the start to the leaf.
- LeafSearch.FindRelatedLeafs: the default argument `method=GraphSearchMethod.BFS` is not modelled. The argument is always passed explicitly, as both calls in `find_related_leafs_compare` do.
- LeafSearch.FindRelatedLeafsCompare: the two maps it compares are pinned down only as far as `FindRelatedLeafs` states: the leaf set and a walk to each leaf. Which of several walks each order records, and so exactly which leaves are reported as mismatched, is not stated.
- The order in which leaves enter the result dictionary, and which of several equal-weight shortest paths is returned, are not stated beyond what the contracts above say.
