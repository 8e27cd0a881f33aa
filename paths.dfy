/**
 * Vertex identifiers, the shape of the edge store, and what a path through
 * it is and what it costs. These are the specification functions the
 * shortest-path query is proved against.
 */
module Paths {

  /** A vertex identifier, the key of the node registry. */
  type Id = string

  /** The edge store: from id -> to id -> cost, at most one cost per ordered pair. */
  type Edges = map<Id, map<Id, int>>

  /** The outgoing edges of `u`; an id with no recorded edges has none. */
  function Out(edges: Edges, u: Id): (r: map<Id, int>)
    ensures forall w :: w in r ==> HasEdge(edges, u, w)
    ensures forall w :: HasEdge(edges, u, w) ==> w in r && r[w] == edges[u][w]
  {
    if u in edges then edges[u] else map[]
  }

  predicate HasEdge(edges: Edges, u: Id, w: Id)
  {
    u in edges && w in edges[u]
  }

  /** Every recorded cost is non-negative, as Dijkstra's algorithm needs. */
  ghost predicate NonNegative(edges: Edges)
  {
    forall u, w :: u in edges && w in edges[u] ==> edges[u][w] >= 0
  }

  /** A non-empty sequence of ids in which each consecutive pair is an edge. */
  predicate IsPath(edges: Edges, p: seq<Id>)
  {
    |p| > 0 && forall i :: 0 <= i < |p| - 1 ==> HasEdge(edges, p[i], p[i + 1])
  }

  /** A path that starts at `s` and ends at `t`. */
  predicate IsPathFrom(edges: Edges, p: seq<Id>, s: Id, t: Id)
  {
    IsPath(edges, p) && p[0] == s && p[|p| - 1] == t
  }

  /** The sum of the edge costs along a path. */
  function PathCost(edges: Edges, p: seq<Id>): int
    requires IsPath(edges, p)
    decreases |p|
  {
    if |p| == 1 then 0
    else
      TailIsPath(edges, p);
      edges[p[0]][p[1]] + PathCost(edges, p[1..])
  }

  /** Dropping the first vertex of a path of two or more leaves a path. */
  lemma TailIsPath(edges: Edges, p: seq<Id>)
    requires IsPath(edges, p) && |p| > 1
    ensures HasEdge(edges, p[0], p[1]) && IsPath(edges, p[1..])
  {
    forall i | 0 <= i < |p[1..]| - 1
      ensures HasEdge(edges, p[1..][i], p[1..][i + 1])
    {
      assert p[1..][i] == p[i + 1] && p[1..][i + 1] == p[i + 2];
    }
  }

  ghost predicate Reachable(edges: Edges, s: Id, t: Id)
  {
    exists p :: IsPathFrom(edges, p, s, t)
  }

  /** `n` is the cost of some path from `s` to `t`, and no such path costs less. */
  ghost predicate IsMinCost(edges: Edges, s: Id, t: Id, n: int)
  {
    && (exists p :: IsPathFrom(edges, p, s, t) && PathCost(edges, p) == n)
    && (forall p :: IsPathFrom(edges, p, s, t) ==> n <= PathCost(edges, p))
  }

  /** Extending a path by one edge at its end adds that edge's cost. */
  lemma {:induction false} AppendEdge(edges: Edges, p: seq<Id>, w: Id)
    requires IsPath(edges, p) && HasEdge(edges, p[|p| - 1], w)
    ensures IsPath(edges, p + [w])
    ensures PathCost(edges, p + [w]) == PathCost(edges, p) + edges[p[|p| - 1]][w]
    decreases |p|
  {
    var q := p + [w];
    forall i | 0 <= i < |q| - 1
      ensures HasEdge(edges, q[i], q[i + 1])
    {
      if i < |p| - 1 {
        assert q[i] == p[i] && q[i + 1] == p[i + 1];
      }
    }
    if |p| > 1 {
      TailIsPath(edges, p);
      AppendEdge(edges, p[1..], w);
      assert q[1..] == p[1..] + [w];
    }
  }

  /** Extending a path by one edge at its start adds that edge's cost. */
  lemma PrependEdge(edges: Edges, u: Id, p: seq<Id>)
    requires IsPath(edges, p) && HasEdge(edges, u, p[0])
    ensures IsPath(edges, [u] + p)
    ensures PathCost(edges, [u] + p) == edges[u][p[0]] + PathCost(edges, p)
  {
    var q := [u] + p;
    forall i | 0 <= i < |q| - 1
      ensures HasEdge(edges, q[i], q[i + 1])
    {
      if i > 0 {
        assert q[i] == p[i - 1] && q[i + 1] == p[i];
      }
    }
    assert q[1..] == p;
  }
}
