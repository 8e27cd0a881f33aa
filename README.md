# Galaxy shortest paths, modelled in Dafny

This project models the core of `project/cypher.cpp`. That core has three parts:

- A node registry, `Universe`. It maps each string id to its node.
- A directed, weighted edge store, `Galaxy`. It maps each id to a map from target id to cost.
- The shortest-path query `shortestPath`. It is Dijkstra's algorithm with a lazy-deletion priority queue. A queued pair whose distance is worse than the recorded one is skipped when it is extracted. After the search, the path is rebuilt by following predecessors back from the destination.

The model keeps the program's form:

- `Universe` and `Galaxy` are classes whose methods update their map fields in place.
- The query is a sequence of methods with loops:
  - `Initialise` fills the distance table.
  - `Relax` relaxes one vertex's outgoing edges.
  - `ExtractMin` is one round of the search loop.
  - `ComputeDistances` is the search loop itself.
  - `Reconstruct` is the predecessor walk.
  - `ShortestPath` is the whole query.
- The query returns the path and its cost instead of printing them.
- The `INT_MAX` sentinel becomes the `Infinity` case of the `Dist` datatype.
- The priority queue becomes a multiset of `(distance, id)` entries.

Everything is proved against pure definitions of a path and its cost in module `Paths`:

- `IsPath` holds when consecutive ids are joined by recorded edges.
- `PathCost` is the sum of the edge costs along a path.
- `Reachable` holds when some path joins two ids.
- `IsMinCost` holds when some path has cost n and no path costs less.

Module `Search` holds the search loop's invariant and the lemmas that each kind of round keeps it. Its ghost state numbers the vertices in the order they are settled. That numbering proves both that the search terminates and that the predecessor walk terminates.

Files:

- `paths.dfy`: ids, the edge store type, paths and path costs.
- `graph.dfy`: the `Universe` and `Galaxy` classes.
- `search.dfy`: the search state, its invariant and the step lemmas.
- `dijkstra.dfy`: the query methods.

## Model

| member | source | states |
|---|---|---|
| Graph.Universe.constructor | project/cypher.cpp:26-28 | A new universe has no nodes, and so its registry is trivially keyed by node id. |
| Graph.Universe.AddNode | project/cypher.cpp:30-32 | The node is stored under its id. Every other id keeps its entry or its absence. The set of ids grows by that id only. The count grows by one exactly when the id was new, so re-adding overwrites rather than duplicates. |
| Graph.Galaxy.constructor | project/cypher.cpp:40 | A new galaxy refers to the given universe and has no edges. |
| Graph.Galaxy.AddEdge | project/cypher.cpp:42-47 | Afterwards the edge (from, to) exists with exactly the new cost, so a second call replaces the cost rather than adding to it. Every other ordered pair keeps its edge and cost, or its absence. The only new source id is `from`. |
| Dijkstra.Initialise | project/cypher.cpp:52-61 | Every registered id has the infinite sentinel, except the source, which has 0. There are no predecessors. The frontier holds exactly (0, source). |
| Dijkstra.Relax | project/cypher.cpp:72-81 | Each edge target is looked up in the registry, and the update is made under the looked-up node's id. After relaxing every outgoing edge of the extracted vertex, each neighbour's distance is at most the extracted distance plus the edge cost. A distance changes only by strictly dropping to that sum. A changed vertex then has the extracted vertex as its predecessor, and every other predecessor is untouched. The frontier gains exactly one entry, (new distance, id), per changed vertex. |
| Dijkstra.ExtractMin | project/cypher.cpp:63-81 | The extracted entry is one of least distance in the frontier. If its distance exceeds the recorded one, the round only removes it. Otherwise the round removes it and relaxes every outgoing edge of its vertex, as Relax states, with that vertex as the new predecessor of each changed vertex. Either way the loop invariant is kept. A recorded distance only ever decreases. It changes only together with a recorded predecessor and a pushed (distance, id) entry. Each round settles a new vertex or shrinks the frontier. |
| Dijkstra.ComputeDistances | project/cypher.cpp:51-82 | When the frontier empties, a distance is finite exactly when the id is reachable from the source. A finite distance is the least cost of any path from the source. Each predecessor is joined to its vertex by an edge, and the vertex's distance is the predecessor's plus that edge's cost. Every reached id other than the source has a predecessor. The source keeps distance 0 and never gets a predecessor. |
| Dijkstra.Reconstruct | project/cypher.cpp:85-90 | Walking predecessors back from the destination until the lookup reads as the empty string gives exactly that walk: each id is the recorded predecessor of the next, the last is the destination, the first has no non-empty predecessor, and the empty string never enters the path. The walk is a path of edges. Its cost is the difference of the recorded distances at its two ends. An empty destination id gives the empty path. A destination without a predecessor gives the one-element path. |
| Dijkstra.ShortestPath | project/cypher.cpp:51-99 | The reported cost is finite exactly when the destination is reachable. Then the path runs from the source to the destination along edges, its edge costs sum to the reported cost, and no path between them costs less. An unreachable destination gives the path [destination] and the sentinel. When source and destination coincide, the result is [source] at cost 0. |
| Search.ImprovesIsStoredLess | project/cypher.cpp:76 | Below `INT_MAX`, the model's improvement test agrees with the source's `<` on stored ints, where an unreached id stores `INT_MAX`. At or above it, the model lets a candidate beat an unreached id and the source does not. |
| Search.StaleIsStoredGreater | project/cypher.cpp:70 | Up to `INT_MAX`, the model's staleness test agrees with the source's `>` on stored ints. An entry is never stale against an unreached id. |
| Search.RelaxStart | project/cypher.cpp:72 | Before any edge is tried, nothing has changed and every edge is still to be tried. |
| Search.RelaxLowers | project/cypher.cpp:74-79 | Trying an edge whose sum beats the target's distance lowers that distance to the sum, makes the extracted vertex its predecessor and pushes exactly one pair. The partial relaxation then holds with that target tried. |
| Search.RelaxKeeps | project/cypher.cpp:74-76 | Trying an edge whose sum does not beat the target's distance changes nothing, and the partial relaxation holds with that target tried. |
| Search.RelaxDone | project/cypher.cpp:72-81 | Once every edge is tried, the partial relaxation is the full relaxation that Relax promises. |
| Search.RoundLowers | project/cypher.cpp:70-81 | In either kind of round, a distance changes only by strictly dropping, together with a predecessor and a pushed entry for the new value. |
| Search.RoundInv | project/cypher.cpp:63-81 | Either kind of round keeps the invariant. A non-stale round settles a new registered vertex; a stale one leaves the settled set alone and shrinks the frontier. |
| Search.MinEntryExists | project/cypher.cpp:64-65 | A non-empty frontier has an entry of least distance, so `pq.top()` is defined. |
| Search.InitInv | project/cypher.cpp:56-61 | The initial state satisfies the search invariant. |
| Search.OutRegistered | project/cypher.cpp:72-73 | Under the well-formedness requirement, every neighbour of a vertex has a recorded distance and a non-negative edge cost. |
| Search.StaleInv | project/cypher.cpp:70 | Dropping an entry whose distance exceeds the recorded one keeps the invariant. |
| Search.SettleKeeps | project/cypher.cpp:72-81 | Settling a least current entry changes neither its own distance, nor any earlier-settled distance, nor the source's. |
| Search.SettleFrontier | project/cypher.cpp:72-81 | After settling, every frontier entry is at or above its id's recorded distance, and a current entry occurs once. |
| Search.SettlePending | project/cypher.cpp:72-81 | After settling, every reached, unsettled vertex still waits in the frontier at its recorded distance. |
| Search.SettleRelaxed | project/cypher.cpp:72-81 | After settling, every settled vertex, the new one included, has all its outgoing edges relaxed. |
| Search.SettleBelow | project/cypher.cpp:72-81 | After settling, every settled distance is at most every frontier entry, and a settled vertex's own remaining entries are stale. |
| Search.SettleTree | project/cypher.cpp:78 | After settling, each predecessor is joined to its vertex by an edge that accounts for the distance difference, and was settled earlier. |
| Search.SettleParented | project/cypher.cpp:77-78 | After settling, every reached vertex other than the source has a predecessor. |
| Search.SettleInv | project/cypher.cpp:72-81 | Settling a least current entry keeps the whole invariant and settles one more registered vertex. |
| Search.FewerUnsettled | project/cypher.cpp:63 | Settling a new registered vertex strictly reduces the number of unsettled ones, which is why the search loop ends. |
| Search.LowerBound | project/cypher.cpp:76 | Once every reached vertex is relaxed, the distance at the end of any path is at most its start's distance plus the path's cost. |
| Search.TreePath | project/cypher.cpp:78 | Following predecessors back from a reached vertex yields a path from the source whose cost is that vertex's recorded distance. |
| Search.Answers | project/cypher.cpp:63-82 | When the frontier is empty, finite distances are exactly the reachable vertices, and each is the least path cost from the source. |
| Paths.Out | project/cypher.cpp:72 | The outgoing edges of a vertex are exactly its recorded edges with their costs; a vertex without a row has none. |
| Paths.TailIsPath | project/cypher.cpp:85-90 | Dropping the first id of a path of two or more leaves a path. |
| Paths.AppendEdge | project/cypher.cpp:78 | Extending a path by one edge at its end gives a path whose cost grows by that edge's cost. |
| Paths.PrependEdge | project/cypher.cpp:88-89 | Extending a path by one edge at its start gives a path whose cost grows by that edge's cost. |

## Left out

- Console output is not modelled (project/cypher.cpp:92-98). This covers printing the path as `A -> B -> C` and printing the cost. `ShortestPath` returns the path, already in source-to-destination order, and the cost. The source instead collects ids from the destination backwards and prints them in reverse.
- `main` and the interactive menu are not part of this model (project/cypher.cpp:101-219). This includes the inter-galaxy option, which only runs the query on a new, empty galaxy.
- Pointer ownership is not modelled. Nodes and edges are values; `new`/`delete` of `Node` and `Edge` objects is left out. The `type` field of a node is kept as `kind` but never read.
- Dijkstra.ExtractMin takes any entry of least distance. The source's queue breaks ties by the lexicographic order of the ids, and the source relaxes edges in `unordered_map` iteration order. Among several cheapest paths, the model does not decide which one is returned. It proves only that the returned path is cheapest.
- Dijkstra.Relax uses unbounded integers. It does not model 32-bit overflow of `currDist + cost`, and it treats the `INT_MAX` sentinel as a true infinity. With very large costs the source can overflow, or can fail to improve a distance that equals `INT_MAX`. Search.ImprovesIsStoredLess and Search.StaleIsStoredGreater state where the two comparisons agree.
- Dijkstra.ShortestPath requires the registry to be keyed by node id (`Universe.Valid`). Every entry made by `addNode` is, but the source's `nodes` map is public and could be filled otherwise. The source writes a relaxed distance under `nodes[w]->id` and not under the edge key `w`, and the model relies on the two being equal.
- Dijkstra.ShortestPath requires every edge target to be a registered id. For an unregistered target, the source's registry lookup yields a null pointer, which it then dereferences.
- Dijkstra.ShortestPath requires every registered id to be non-empty. The predecessor walk stops at the empty string, so an empty id used as a predecessor would cut the path short. Dijkstra.Reconstruct itself has no such requirement and states what happens in that case: the walk stops before the empty id, which never appears in the path.
- Dijkstra.ShortestPath requires every edge cost to be non-negative, although `addEdge` accepts any `int`. The query is designed for non-negative costs, and the proof's argument that a settled vertex's distance never changes again (Search.SettleKeeps) needs them. The model therefore says nothing about negative costs. The source itself has no settled set: it pushes a vertex again whenever its distance improves (project/cypher.cpp:76-79) and skips only entries that are stale by value (line 70). So with negative costs but no negative cycle it still ends with least costs; with A→B 2, A→C 5 and C→B −4, B ends at 1 through C. With a negative cycle the loop keeps lowering distances and the frontier never empties, short of signed overflow.
- Dijkstra.ShortestPath requires source and destination to be registered. For an unregistered destination, the source reads a distance that `operator[]` inserts as 0.
- Dijkstra.ComputeDistances does not model that `edgeMap[currNodeId]` inserts an empty edge map for a vertex with no outgoing edges. The insertion adds no edge. The same applies to the insertion of `""` by `prevNodes[currNode]` during reconstruction.
