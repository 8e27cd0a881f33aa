/**
 * The shortest-path query over a galaxy: lazy-deletion Dijkstra from a
 * source vertex, then reconstruction of the path to a destination by
 * following predecessors back. The query returns the path and its cost
 * instead of printing them.
 */
module Dijkstra {
  import opened Paths
  import opened Graph
  import opened Search

  /**
   * Sets up the working state: the sentinel distance for every registered
   * id, 0 for the source, no predecessors, and a frontier holding only
   * (0, source).
   */
  method Initialise(galaxy: Galaxy, source: Id)
    returns (distances: map<Id, Dist>, prevNodes: map<Id, Id>, pq: multiset<Entry>)
    ensures distances.Keys == galaxy.universe.nodes.Keys + {source}
    ensures distances[source] == Finite(0)
    ensures forall v :: v in distances && v != source ==> distances[v] == Infinity
    ensures prevNodes == map[] && pq == multiset{Entry(0, source)}
  {
    var ids := galaxy.universe.nodes.Keys;
    distances := map[];
    while ids != {}
      invariant ids <= galaxy.universe.nodes.Keys
      invariant distances.Keys == galaxy.universe.nodes.Keys - ids
      invariant forall v :: v in distances ==> distances[v] == Infinity
      decreases ids
    {
      var id :| id in ids;
      distances := distances[id := Infinity];
      ids := ids - {id};
    }
    distances := distances[source := Finite(0)];
    prevNodes := map[];
    pq := multiset{Entry(0, source)};
  }

  /**
   * Relaxes every outgoing edge `out` of `x`, which was extracted at
   * distance `d`: each target is looked up in the registry `nodes`, and
   * where d + cost beats the distance recorded under the node's id, records
   * it, makes `x` the node's predecessor and pushes the pair onto the
   * frontier.
   */
  method Relax(nodes: map<Id, Node>, out: map<Id, int>, x: Id, d: nat,
               distances: map<Id, Dist>, prevNodes: map<Id, Id>, pq: multiset<Entry>)
    returns (distances': map<Id, Dist>, prevNodes': map<Id, Id>, pq': multiset<Entry>)
    requires forall w :: w in out ==> w in nodes && nodes[w].id == w && w in distances && out[w] >= 0
    ensures RelaxedFrom(out, x, d, distances, prevNodes, pq, distances', prevNodes', pq')
  {
    distances', prevNodes', pq' := distances, prevNodes, pq;
    var todo := out.Keys;
    RelaxStart(out, x, d, distances, prevNodes, pq);
    while todo != {}
      invariant RelaxedExcept(out, todo, x, d, distances, prevNodes, pq, distances', prevNodes', pq')
      decreases todo
    {
      var w :| w in todo;
      var neighborNode := nodes[w];
      var newDist: nat := d + out[w];
      if Improves(newDist, distances'[neighborNode.id]) {
        RelaxLowers(out, todo, x, d, distances, prevNodes, pq, distances', prevNodes', pq', w);
        distances' := distances'[neighborNode.id := Finite(newDist)];
        prevNodes' := prevNodes'[neighborNode.id := x];
        pq' := pq' + multiset{Entry(newDist, neighborNode.id)};
      } else {
        RelaxKeeps(out, todo, x, d, distances, prevNodes, pq, distances', prevNodes', pq', w);
      }
      todo := todo - {w};
    }
    RelaxDone(out, x, d, distances, prevNodes, pq, distances', prevNodes', pq');
  }

  /**
   * One round of the search loop: extracts a least pair from the frontier;
   * a pair whose distance is worse than the recorded one is dropped, any
   * other settles its vertex and relaxes that vertex's outgoing edges. The
   * ghost state `st` tracks the frontier invariant, and every round either
   * settles a new vertex or shrinks the frontier.
   */
  method ExtractMin(nodes: map<Id, Node>, ghost V: set<Id>, edges: Edges, source: Id, ghost st: State,
                    distances: map<Id, Dist>, prevNodes: map<Id, Id>, pq: multiset<Entry>)
    returns (distances': map<Id, Dist>, prevNodes': map<Id, Id>, pq': multiset<Entry>,
             ghost curr: Entry, ghost st': State)
    requires nodes.Keys == V && KeyedById(nodes)
    requires WellFormed(V, edges) && Inv(V, edges, source, st)
    requires st.dist == distances && st.prev == prevNodes && st.pq == pq && pq != multiset{}
    ensures RoundResult(edges, distances, prevNodes, pq, curr, distances', prevNodes', pq')
    ensures Inv(V, edges, source, st')
    ensures st'.dist == distances' && st'.prev == prevNodes' && st'.pq == pq'
    ensures distances'.Keys == distances.Keys
    ensures forall v :: v in distances && distances'[v] != distances[v] ==>
              && distances'[v].Finite? && Improves(distances'[v].n, distances[v])
              && v in prevNodes' && Entry(distances'[v].n, v) in pq'
    ensures || |V - st'.rank.Keys| < |V - st.rank.Keys|
            || (st'.rank == st.rank && |pq'| < |pq|)
  {
    var some :| some in pq;
    MinEntryExists(pq, some);
    var e :| IsMinEntry(e, pq);
    var currNodeId, currDist := e.id, e.d;
    if Stale(e, distances[currNodeId]) {
      distances', prevNodes', pq' := distances, prevNodes, pq - multiset{e};
    } else {
      OutRegistered(V, edges, distances, currNodeId);
      distances', prevNodes', pq' :=
        Relax(nodes, Out(edges, currNodeId), currNodeId, currDist, distances, prevNodes, pq - multiset{e});
    }
    curr := e;
    RoundLowers(edges, distances, prevNodes, pq, curr, distances', prevNodes', pq');
    RoundInv(V, edges, source, st, curr, distances', prevNodes', pq');
    st' := Next(st, curr, distances', prevNodes', pq');
  }

  /**
   * The search loop: computes, for every registered id, the cost of a
   * cheapest path from `source` (the sentinel when there is none), together
   * with a predecessor for every reached vertex but the source. The ghost
   * `rank` numbers the vertices in the order they were settled; each
   * predecessor was settled before its successor.
   */
  method ComputeDistances(galaxy: Galaxy, source: Id)
    returns (distances: map<Id, Dist>, prevNodes: map<Id, Id>, ghost rank: map<Id, nat>)
    requires galaxy.universe.Valid()
    requires WellFormed(galaxy.universe.nodes.Keys, galaxy.edgeMap)
    requires source in galaxy.universe.nodes
    ensures distances.Keys == galaxy.universe.nodes.Keys
    ensures distances[source] == Finite(0) && source !in prevNodes
    ensures forall v :: v in distances ==> (distances[v].Finite? <==> Reachable(galaxy.edgeMap, source, v))
    ensures forall v :: v in distances && distances[v].Finite? ==>
              IsMinCost(galaxy.edgeMap, source, v, distances[v].n)
    ensures forall v {:trigger prevNodes[v]} :: v in prevNodes ==> PrevEdge(galaxy.edgeMap, distances, prevNodes, v)
    ensures forall v :: v in distances && distances[v].Finite? && v != source ==> v in prevNodes
    ensures forall v {:trigger prevNodes[v]} :: v in prevNodes ==>
              v in rank && prevNodes[v] in rank && rank[prevNodes[v]] < rank[v]
    ensures rank.Keys <= distances.Keys
  {
    var nodes := galaxy.universe.nodes;
    ghost var V := nodes.Keys;
    var edges := galaxy.edgeMap;
    var pq;
    distances, prevNodes, pq := Initialise(galaxy, source);
    InitInv(V, edges, source, distances);
    ghost var st := State(distances, prevNodes, pq, map[], 0);
    while pq != multiset{}
      invariant Inv(V, edges, source, st)
      invariant st.dist == distances && st.prev == prevNodes && st.pq == pq
      decreases |V - st.rank.Keys|, |pq|
    {
      ghost var st0 := st;
      ghost var curr;
      distances, prevNodes, pq, curr, st := ExtractMin(nodes, V, edges, source, st0, distances, prevNodes, pq);
    }
    rank := st.rank;
    Answers(V, edges, source, st);
  }

  /**
   * Walks the predecessors back from `dest`, prepending each id, until the
   * walk reaches the empty string, which is what the lookup of an id without
   * a predecessor reads as, and which is never prepended. The result is the
   * walk itself (PredecessorWalk): each id is the recorded predecessor of the
   * next, the last is `dest`, and the first has no (non-empty) predecessor. It is a path of edges whose cost is the
   * difference of the recorded distances at its two ends.
   */
  method Reconstruct(edges: Edges, distances: map<Id, Dist>, prevNodes: map<Id, Id>,
                     ghost rank: map<Id, nat>, dest: Id)
    returns (path: seq<Id>)
    requires dest == "" || dest in distances
    requires forall v {:trigger prevNodes[v]} :: v in prevNodes ==> PrevEdge(edges, distances, prevNodes, v)
    requires forall v {:trigger prevNodes[v]} :: v in prevNodes ==>
               v in rank && prevNodes[v] in rank && rank[prevNodes[v]] < rank[v]
    ensures dest == "" ==> path == []
    ensures dest != "" ==>
              && IsPath(edges, path) && path[|path| - 1] == dest && path[0] in distances
              && (path[0] !in prevNodes || prevNodes[path[0]] == "")
    ensures dest != "" && distances[dest].Finite? ==>
              distances[path[0]].Finite? && PathCost(edges, path) == distances[dest].n - distances[path[0]].n
    ensures dest !in prevNodes ==> |path| <= 1
    ensures PredecessorWalk(prevNodes, path)
  {
    path := [];
    var currNode := dest;
    while currNode != ""
      invariant PredecessorWalk(prevNodes, path)
      invariant currNode == "" || currNode in distances
      invariant path == [] ==> currNode == dest
      invariant dest == "" ==> path == []
      invariant path != [] ==> dest in distances && IsPath(edges, path) && path[|path| - 1] == dest
      invariant path != [] ==> currNode == if path[0] in prevNodes then prevNodes[path[0]] else ""
      invariant path != [] ==> path[0] in distances
      invariant path != [] && distances[dest].Finite? ==>
                  distances[path[0]].Finite? && PathCost(edges, path) == distances[dest].n - distances[path[0]].n
      invariant dest !in prevNodes ==> |path| <= 1
      decreases if currNode == "" then 0 else if currNode in rank then rank[currNode] + 2 else 1
    {
      if path != [] {
        assert PrevEdge(edges, distances, prevNodes, path[0]);
        PrependEdge(edges, currNode, path);
      }
      WalkPrepend(prevNodes, currNode, path);
      path := [currNode] + path;
      currNode := if currNode in prevNodes then prevNodes[currNode] else "";
    }
  }

  /**
   * The query: a cheapest path from `source` to `destination` and its cost.
   * When the destination is unreachable the cost is the sentinel and the
   * path is the destination alone; when source and destination coincide
   * the path is that one vertex at cost 0.
   */
  method ShortestPath(galaxy: Galaxy, source: Node, destination: Node)
    returns (path: seq<Id>, totalCost: Dist)
    requires galaxy.universe.Valid()
    requires WellFormed(galaxy.universe.nodes.Keys, galaxy.edgeMap)
    requires source.id in galaxy.universe.nodes && destination.id in galaxy.universe.nodes
    ensures totalCost.Finite? <==> Reachable(galaxy.edgeMap, source.id, destination.id)
    ensures totalCost.Finite? ==>
              && IsPathFrom(galaxy.edgeMap, path, source.id, destination.id)
              && PathCost(galaxy.edgeMap, path) == totalCost.n
              && forall p :: IsPathFrom(galaxy.edgeMap, p, source.id, destination.id) ==>
                   totalCost.n <= PathCost(galaxy.edgeMap, p)
    ensures totalCost == Infinity ==> path == [destination.id]
    ensures source.id == destination.id ==> path == [source.id] && totalCost == Finite(0)
  {
    var edges := galaxy.edgeMap;
    var distances, prevNodes;
    ghost var rank;
    distances, prevNodes, rank := ComputeDistances(galaxy, source.id);
    var dest := destination.id;
    path := Reconstruct(edges, distances, prevNodes, rank, dest);
    if distances[dest].Finite? {
      // The walk stops only at the source: every other reached id has a non-empty predecessor.
      assert path[0] !in prevNodes;
      assert path[0] == source.id;
      assert PathCost(edges, path) == distances[dest].n;
    } else {
      assert dest !in prevNodes;
    }
    totalCost := distances[dest];
  }
}
