/**
 * The two stores the query runs over: the node registry (`Universe`) and the
 * directed, weighted edge store (`Galaxy`). Both are only ever added to.
 */
module Graph {
  import opened Paths

  /** A registered vertex: its id and a free-form kind the algorithm never reads. */
  datatype Node = Node(id: Id, kind: string)

  /** Every entry of a registry is keyed by its own node's id. */
  ghost predicate KeyedById(nodes: map<Id, Node>)
  {
    forall k :: k in nodes ==> nodes[k].id == k
  }

  /** The node registry: a map from id to node, written by AddNode. */
  class Universe {
    var nodes: map<Id, Node>

    ghost predicate Valid()
      reads this
    {
      KeyedById(nodes)
    }

    constructor ()
      ensures Valid() && nodes == map[]
    {
      nodes := map[];
    }

    /**
     * Registers `node` under its id. An id registered before is overwritten,
     * not duplicated; every other id keeps its entry.
     */
    method AddNode(node: Node)
      requires Valid()
      modifies this
      ensures Valid()
      ensures node.id in nodes && nodes[node.id] == node
      ensures forall k :: k != node.id ==> (k in nodes <==> k in old(nodes))
      ensures forall k :: k != node.id && k in old(nodes) ==> nodes[k] == old(nodes)[k]
      ensures nodes.Keys == old(nodes).Keys + {node.id}
      ensures |nodes| == if node.id in old(nodes) then |old(nodes)| else |old(nodes)| + 1
    {
      nodes := nodes[node.id := node];
    }
  }

  /** The edge store of one universe: from id -> to id -> cost. */
  class Galaxy {
    var universe: Universe
    var edgeMap: Edges

    constructor (universe: Universe)
      ensures this.universe == universe && edgeMap == map[]
    {
      this.universe := universe;
      edgeMap := map[];
    }

    /**
     * Records the directed edge fromNode -> toNode with `cost`. A second call
     * for the same ordered pair replaces the cost rather than adding to it;
     * every other pair keeps its edge or its absence. The endpoints are not
     * checked against the registry.
     */
    method AddEdge(fromNode: Node, toNode: Node, cost: int)
      modifies this`edgeMap
      ensures HasEdge(edgeMap, fromNode.id, toNode.id)
      ensures edgeMap[fromNode.id][toNode.id] == cost
      ensures forall u, w :: (u, w) != (fromNode.id, toNode.id) ==>
                (HasEdge(edgeMap, u, w) <==> HasEdge(old(edgeMap), u, w))
      ensures forall u, w :: (u, w) != (fromNode.id, toNode.id) && HasEdge(old(edgeMap), u, w) ==>
                HasEdge(edgeMap, u, w) && edgeMap[u][w] == old(edgeMap)[u][w]
      ensures edgeMap.Keys == old(edgeMap).Keys + {fromNode.id}
    {
      if fromNode.id !in edgeMap {
        edgeMap := edgeMap[fromNode.id := map[]];
      }
      edgeMap := edgeMap[fromNode.id := edgeMap[fromNode.id][toNode.id := cost]];
    }
  }
}
