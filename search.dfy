/**
 * The working state of one shortest-path query (recorded distances,
 * predecessors and the frontier), the invariant the search loop keeps, and
 * the lemmas that the loop's two kinds of step preserve it and that its
 * final state answers the query.
 */
module Search {
  import opened Paths

  /** A recorded distance; `Infinity` stands for the INT_MAX sentinel. */
  datatype Dist = Finite(n: nat) | Infinity

  /** A frontier entry: the pair (distance, id). */
  datatype Entry = Entry(d: nat, id: Id)

  /** The largest 32-bit `int`, which the source stores for an unreached id. */
  const INT_MAX: int := 0x7fff_ffff

  /** The `int` the source stores for a recorded distance. */
  function Stored(dx: Dist): int
  {
    if dx.Infinity? then INT_MAX else dx.n
  }

  /** The candidate distance `nd` beats the recorded one `dw`; every finite value beats the sentinel. */
  predicate Improves(nd: int, dw: Dist)
  {
    dw.Infinity? || nd < dw.n
  }

  /**
   * Below the sentinel, Improves is the source's `<` on stored ints; at or
   * above it the model still lets a candidate beat an unreached id, where
   * the source's comparison would not.
   */
  lemma ImprovesIsStoredLess(nd: int, dw: Dist)
    ensures nd < INT_MAX ==> (Improves(nd, dw) <==> nd < Stored(dw))
    ensures nd >= INT_MAX && dw.Infinity? ==> Improves(nd, dw) && !(nd < Stored(dw))
  {
  }

  /** An entry is stale when its distance exceeds the one recorded for its id. */
  predicate Stale(e: Entry, dx: Dist)
  {
    dx.Finite? && e.d > dx.n
  }

  /**
   * Up to the sentinel, Stale is the source's `>` on stored ints: an entry
   * is never stale against an unreached id.
   */
  lemma StaleIsStoredGreater(e: Entry, dx: Dist)
    ensures e.d <= INT_MAX ==> (Stale(e, dx) <==> e.d > Stored(dx))
    ensures dx.Infinity? ==> !Stale(e, dx)
  {
  }

  /** `e` is an entry of `pq` with the smallest distance. */
  predicate IsMinEntry(e: Entry, pq: multiset<Entry>)
  {
    e in pq && forall f :: f in pq ==> e.d <= f.d
  }

  /** A frontier holding `x` has an entry of smallest distance, at most x's. */
  lemma {:induction false} MinEntryExists(pq: multiset<Entry>, x: Entry)
    requires x in pq
    ensures exists e :: IsMinEntry(e, pq) && e.d <= x.d
    decreases x.d
  {
    if !IsMinEntry(x, pq) {
      var y :| y in pq && y.d < x.d;
      MinEntryExists(pq, y);
    }
  }

  /**
   * What the query needs of the registry's ids `V` and the edges `E`: ids are
   * non-empty (the empty string ends path reconstruction), every edge target
   * is registered, and no cost is negative.
   */
  ghost predicate WellFormed(V: set<Id>, E: Edges)
  {
    && "" !in V
    && NonNegative(E)
    && forall u, w :: u in E && w in E[u] ==> w in V
  }

  /** `e` records a distance of `dist'` that differs from the one in `dist`. */
  predicate Pushed(dist: map<Id, Dist>, dist': map<Id, Dist>, e: Entry)
  {
    e.id in dist && e.id in dist' && dist'[e.id] != dist[e.id] && dist'[e.id] == Finite(e.d)
  }

  /**
   * The effect of relaxing every outgoing edge `out` of vertex `x`, extracted
   * at distance `d`: each edge has been tried; a distance only ever changes by
   * strictly dropping to d + cost, and then its predecessor becomes `x`; the
   * predecessor of every unchanged vertex is untouched; and the frontier gains
   * exactly one entry per changed distance.
   */
  ghost predicate RelaxedFrom(out: map<Id, int>, x: Id, d: nat,
                              dist: map<Id, Dist>, prev: map<Id, Id>, pq: multiset<Entry>,
                              dist': map<Id, Dist>, prev': map<Id, Id>, pq': multiset<Entry>)
  {
    && dist'.Keys == dist.Keys
    && (forall w :: w in out ==> w in dist' && dist'[w].Finite? && dist'[w].n <= d + out[w])
    && (forall v :: v in dist && dist'[v] != dist[v] ==>
          && v in out && Improves(d + out[v], dist[v])
          && dist'[v].Finite? && dist'[v].n == d + out[v]
          && v in prev' && prev'[v] == x)
    && (forall v :: (v !in dist || dist'[v] == dist[v]) ==>
          (v in prev' <==> v in prev) && (v in prev ==> prev'[v] == prev[v]))
    && (forall e :: pq'[e] == pq[e] + (if Pushed(dist, dist', e) then 1 else 0))
  }

  /**
   * Relaxation of the edges `out` of `x` part-way through: the targets in
   * `todo` are still to be tried, and RelaxedFrom holds for the others.
   */
  ghost predicate RelaxedExcept(out: map<Id, int>, todo: set<Id>, x: Id, d: nat,
                                dist: map<Id, Dist>, prev: map<Id, Id>, pq: multiset<Entry>,
                                dist': map<Id, Dist>, prev': map<Id, Id>, pq': multiset<Entry>)
  {
    && todo <= out.Keys
    && Tried(out, todo, d, dist')
    && Lowered(out, todo, x, d, dist, dist', prev')
    && PrevKept(dist, prev, dist', prev')
    && Counted(dist, dist', pq, pq')
  }

  /** Every target already tried has a distance of at most d + cost. */
  ghost predicate Tried(out: map<Id, int>, todo: set<Id>, d: nat, dist': map<Id, Dist>)
  {
    forall w {:trigger out[w]} :: w in out && w !in todo ==> w in dist' && dist'[w].Finite? && dist'[w].n <= d + out[w]
  }

  /** Where the distance is unchanged, so is the predecessor. */
  ghost predicate PrevKept(dist: map<Id, Dist>, prev: map<Id, Id>, dist': map<Id, Dist>, prev': map<Id, Id>)
  {
    forall v {:trigger v in prev'} :: (v !in dist || (v in dist' && dist'[v] == dist[v])) ==>
      (v in prev' <==> v in prev) && (v in prev ==> prev'[v] == prev[v])
  }

  /** Trying `w` leaves it at most d + cost, lowered or not. */
  lemma TriedStep(out: map<Id, int>, todo: set<Id>, d: nat, dist': map<Id, Dist>, dist'': map<Id, Dist>, w: Id)
    requires Tried(out, todo, d, dist') && w in out && w in dist'
    requires dist''.Keys == dist'.Keys && dist''[w].Finite? && dist''[w].n <= d + out[w]
    requires forall v :: v in dist' && v != w ==> dist''[v] == dist'[v]
    ensures Tried(out, todo - {w}, d, dist'')
  {
  }

  /** Lowering `w`'s distance away from its starting value keeps PrevKept whatever its new predecessor. */
  lemma PrevKeptStep(dist: map<Id, Dist>, prev: map<Id, Id>, dist': map<Id, Dist>, prev': map<Id, Id>,
                     w: Id, n: nat, x: Id)
    requires PrevKept(dist, prev, dist', prev') && w in dist && dist[w] != Finite(n)
    ensures PrevKept(dist, prev, dist'[w := Finite(n)], prev'[w := x])
  {
  }

  /** The distance table keeps its ids, and each changed distance dropped to d + cost through an edge already tried, with `x` as predecessor. */
  ghost predicate Lowered(out: map<Id, int>, todo: set<Id>, x: Id, d: nat,
                          dist: map<Id, Dist>, dist': map<Id, Dist>, prev': map<Id, Id>)
  {
    && dist'.Keys == dist.Keys
    && forall v {:trigger dist'[v]} :: v in dist && dist'[v] != dist[v] ==>
      && v in out && v !in todo && Improves(d + out[v], dist[v])
      && dist'[v].Finite? && dist'[v].n == d + out[v]
      && v in prev' && prev'[v] == x
  }

  /** The frontier gained exactly one entry per changed distance. */
  ghost predicate Counted(dist: map<Id, Dist>, dist': map<Id, Dist>, pq: multiset<Entry>, pq': multiset<Entry>)
  {
    forall e {:trigger pq'[e]} :: pq'[e] == pq[e] + (if Pushed(dist, dist', e) then 1 else 0)
  }

  /** Lowering a not yet tried target `w` to d + cost keeps Lowered, with `w` now tried. */
  lemma LoweredStep(out: map<Id, int>, todo: set<Id>, x: Id, d: nat,
                    dist: map<Id, Dist>, dist': map<Id, Dist>, prev': map<Id, Id>, w: Id)
    requires Lowered(out, todo, x, d, dist, dist', prev')
    requires w in todo && w in dist && w in out && out[w] >= 0 && Improves(d + out[w], dist'[w])
    ensures Lowered(out, todo - {w}, x, d, dist, dist'[w := Finite(d + out[w])], prev'[w := x])
  {
    var dist'', prev'' := dist'[w := Finite(d + out[w])], prev'[w := x];
    forall v | v in dist && dist''[v] != dist[v]
      ensures v in out && v !in todo - {w} && Improves(d + out[v], dist[v])
      ensures dist''[v].Finite? && dist''[v].n == d + out[v] && v in prev'' && prev''[v] == x
    {
    }
  }

  /** Lowered holds as well for fewer targets still to be tried. */
  lemma LoweredShrink(out: map<Id, int>, todo: set<Id>, todo': set<Id>, x: Id, d: nat,
                      dist: map<Id, Dist>, dist': map<Id, Dist>, prev': map<Id, Id>)
    requires Lowered(out, todo, x, d, dist, dist', prev') && todo' <= todo
    ensures Lowered(out, todo', x, d, dist, dist', prev')
  {
  }

  /** Lowering a so far unchanged distance and pushing its entry keeps Counted. */
  lemma CountedStep(dist: map<Id, Dist>, dist': map<Id, Dist>, pq: multiset<Entry>, pq': multiset<Entry>,
                    w: Id, n: nat)
    requires Counted(dist, dist', pq, pq') && dist'.Keys == dist.Keys
    requires w in dist && dist'[w] == dist[w] && dist[w] != Finite(n)
    ensures Counted(dist, dist'[w := Finite(n)], pq, pq' + multiset{Entry(n, w)})
  {
    var dist'', pq'' := dist'[w := Finite(n)], pq' + multiset{Entry(n, w)};
    forall f
      ensures pq''[f] == pq[f] + (if Pushed(dist, dist'', f) then 1 else 0)
    {
    }
  }

  /** Before any edge is tried nothing has changed. */
  lemma RelaxStart(out: map<Id, int>, x: Id, d: nat,
                   dist: map<Id, Dist>, prev: map<Id, Id>, pq: multiset<Entry>)
    ensures RelaxedExcept(out, out.Keys, x, d, dist, prev, pq, dist, prev, pq)
  {
    forall e
      ensures pq[e] == pq[e] + (if Pushed(dist, dist, e) then 1 else 0)
    {
    }
  }

  /**
   * Trying the edge to `w` when d + cost beats w's recorded distance: that
   * distance drops to it, `x` becomes w's predecessor and the pair is pushed.
   */
  lemma RelaxLowers(out: map<Id, int>, todo: set<Id>, x: Id, d: nat,
                    dist: map<Id, Dist>, prev: map<Id, Id>, pq: multiset<Entry>,
                    dist': map<Id, Dist>, prev': map<Id, Id>, pq': multiset<Entry>, w: Id)
    requires RelaxedExcept(out, todo, x, d, dist, prev, pq, dist', prev', pq')
    requires w in todo && w in dist && out[w] >= 0 && Improves(d + out[w], dist'[w])
    ensures RelaxedExcept(out, todo - {w}, x, d, dist, prev, pq,
                          dist'[w := Finite(d + out[w])], prev'[w := x], pq' + multiset{Entry(d + out[w], w)})
  {
    LoweredStep(out, todo, x, d, dist, dist', prev', w);
    CountedStep(dist, dist', pq, pq', w, d + out[w]);
    TriedStep(out, todo, d, dist', dist'[w := Finite(d + out[w])], w);
    PrevKeptStep(dist, prev, dist', prev', w, d + out[w], x);
  }

  /** Trying the edge to `w` when d + cost does not beat w's recorded distance changes nothing. */
  lemma RelaxKeeps(out: map<Id, int>, todo: set<Id>, x: Id, d: nat,
                   dist: map<Id, Dist>, prev: map<Id, Id>, pq: multiset<Entry>,
                   dist': map<Id, Dist>, prev': map<Id, Id>, pq': multiset<Entry>, w: Id)
    requires RelaxedExcept(out, todo, x, d, dist, prev, pq, dist', prev', pq')
    requires w in todo && w in dist && out[w] >= 0 && !Improves(d + out[w], dist'[w])
    ensures RelaxedExcept(out, todo - {w}, x, d, dist, prev, pq, dist', prev', pq')
  {
    TriedStep(out, todo, d, dist', dist', w);
    LoweredShrink(out, todo, todo - {w}, x, d, dist, dist', prev');
  }

  /** Once every edge is tried, the edges of `x` are relaxed. */
  lemma RelaxDone(out: map<Id, int>, x: Id, d: nat,
                  dist: map<Id, Dist>, prev: map<Id, Id>, pq: multiset<Entry>,
                  dist': map<Id, Dist>, prev': map<Id, Id>, pq': multiset<Entry>)
    requires RelaxedExcept(out, {}, x, d, dist, prev, pq, dist', prev', pq')
    ensures RelaxedFrom(out, x, d, dist, prev, pq, dist', prev', pq')
  {
  }

  /**
   * The predecessor `u` of `v` is the tail of an edge into `v`, and v's
   * distance is u's plus that edge's cost.
   */
  ghost predicate PrevEdge(E: Edges, dist: map<Id, Dist>, prev: map<Id, Id>, v: Id)
    requires v in prev
  {
    var u := prev[v];
    && HasEdge(E, u, v) && u in dist && v in dist
    && dist[u].Finite? && dist[v].Finite? && dist[v].n == dist[u].n + E[u][v]
  }

  /** All edges out of `u` are relaxed: no neighbour's distance exceeds u's plus the edge cost. */
  ghost predicate Relaxed(E: Edges, dist: map<Id, Dist>, u: Id)
  {
    && u in dist && dist[u].Finite?
    && forall w {:trigger w in Out(E, u)} :: w in Out(E, u) ==> w in dist && dist[w].Finite? && dist[w].n <= dist[u].n + Out(E, u)[w]
  }

  /**
   * The state of the search loop. `rank` is ghost bookkeeping: the vertices
   * already extracted with a current (not stale) entry, numbered in the
   * order of extraction, and `step` is the next number to give.
   */
  datatype State = State(dist: map<Id, Dist>, prev: map<Id, Id>, pq: multiset<Entry>,
                         rank: map<Id, nat>, step: nat)

  /** Distances are recorded for exactly the registered ids; the source is at 0 and has no predecessor. */
  ghost predicate Shape(V: set<Id>, src: Id, s: State)
  {
    && s.dist.Keys == V && src in V && s.dist[src] == Finite(0) && src !in s.prev
    && s.prev.Keys <= V && s.rank.Keys <= V
  }

  /** No entry is below the distance recorded for its id; a current entry occurs once. */
  ghost predicate FrontierSound(s: State)
  {
    && (forall e {:trigger s.pq[e]} :: e in s.pq ==> e.id in s.dist && s.dist[e.id].Finite? && s.dist[e.id].n <= e.d)
    && (forall e {:trigger s.pq[e]} :: e in s.pq && e.id in s.dist && s.dist[e.id] == Finite(e.d) ==> s.pq[e] == 1)
  }

  /** Every reached vertex not yet extracted waits in the frontier with its current distance. */
  ghost predicate Pending(s: State)
  {
    forall v :: v in s.dist && s.dist[v].Finite? && v !in s.rank ==> Entry(s.dist[v].n, v) in s.pq
  }

  /** Every extracted vertex has its edges relaxed, and its rank was given before `step`. */
  ghost predicate SettledRelaxed(E: Edges, s: State)
  {
    forall u :: u in s.rank ==> Relaxed(E, s.dist, u) && s.rank[u] < s.step
  }

  /**
   * The distance of an extracted vertex is final: it is no larger than any
   * entry left in the frontier, and every entry of its own there is stale.
   */
  ghost predicate SettledBelow(s: State)
  {
    && (forall u, e {:trigger s.pq[e], u in s.rank} :: u in s.rank && u in s.dist && s.dist[u].Finite? && e in s.pq ==> s.dist[u].n <= e.d)
    && (forall e {:trigger s.pq[e]} :: e in s.pq && e.id in s.rank ==> e.id in s.dist && s.dist[e.id].Finite? && s.dist[e.id].n < e.d)
  }

  /**
   * Predecessors form a tree of edges: each predecessor is the tail of an
   * edge into its successor, was extracted, and earlier than its successor.
   */
  ghost predicate Tree(E: Edges, s: State)
  {
    forall v {:trigger s.prev[v]} :: v in s.prev ==>
      && PrevEdge(E, s.dist, s.prev, v) && s.prev[v] in s.rank
      && (v in s.rank ==> s.rank[s.prev[v]] < s.rank[v])
  }

  /** Every reached vertex other than the source has a predecessor. */
  ghost predicate Parented(src: Id, s: State)
  {
    forall v :: v in s.dist && s.dist[v].Finite? && v != src ==> v in s.prev
  }

  ghost predicate Inv(V: set<Id>, E: Edges, src: Id, s: State)
  {
    && Shape(V, src, s) && FrontierSound(s) && Pending(s)
    && SettledRelaxed(E, s) && SettledBelow(s) && Tree(E, s) && Parented(src, s)
  }

  /** The state after initialisation satisfies the invariant. */
  lemma InitInv(V: set<Id>, E: Edges, src: Id, dist: map<Id, Dist>)
    requires dist.Keys == V && src in V && dist[src] == Finite(0)
    requires forall v :: v in dist && v != src ==> dist[v] == Infinity
    ensures Inv(V, E, src, State(dist, map[], multiset{Entry(0, src)}, map[], 0))
  {
  }

  /** The edges out of any vertex lead to registered ids and cost nothing negative. */
  lemma OutRegistered(V: set<Id>, E: Edges, dist: map<Id, Dist>, u: Id)
    requires WellFormed(V, E) && dist.Keys == V
    ensures forall w :: w in Out(E, u) ==> w in dist && Out(E, u)[w] >= 0
  {
  }

  /** Discarding a stale entry preserves the invariant. */
  lemma StaleInv(V: set<Id>, E: Edges, src: Id, s: State, e: Entry)
    requires Inv(V, E, src, s) && e in s.pq && e.id in s.dist && Stale(e, s.dist[e.id])
    ensures Inv(V, E, src, s.(pq := s.pq - multiset{e}))
  {
    StaleFrontier(s, e);
    StalePending(s, e);
    StaleBelow(s, e);
  }

  /** Discarding a stale entry keeps the frontier sound. */
  lemma StaleFrontier(s: State, e: Entry)
    requires FrontierSound(s) && e.id in s.dist && Stale(e, s.dist[e.id])
    ensures FrontierSound(s.(pq := s.pq - multiset{e}))
  {
  }

  /** A stale entry is no vertex's current entry, so every reached, unsettled vertex still waits in the frontier. */
  lemma StalePending(s: State, e: Entry)
    requires Pending(s) && e.id in s.dist && Stale(e, s.dist[e.id])
    ensures Pending(s.(pq := s.pq - multiset{e}))
  {
    var s' := s.(pq := s.pq - multiset{e});
    forall v | v in s'.dist && s'.dist[v].Finite? && v !in s'.rank
      ensures Entry(s'.dist[v].n, v) in s'.pq
    {
      assert Entry(s.dist[v].n, v) != e;
    }
  }

  /** Removing any entry keeps settled distances below the frontier. */
  lemma StaleBelow(s: State, e: Entry)
    requires SettledBelow(s)
    ensures SettledBelow(s.(pq := s.pq - multiset{e}))
  {
  }

  /**
   * A round that settles: its least entry `e` is current, so dist', prev',
   * pq' are the result of removing it and relaxing the edges out of its vertex.
   */
  ghost predicate Settling(V: set<Id>, E: Edges, s: State, e: Entry,
                           dist': map<Id, Dist>, prev': map<Id, Id>, pq': multiset<Entry>)
  {
    && WellFormed(V, E)
    && RoundResult(E, s.dist, s.prev, s.pq, e, dist', prev', pq')
    && !Stale(e, s.dist[e.id])
  }

  /** The state after a step; the extracted vertex gets the next rank. */
  function After(s: State, e: Entry, dist': map<Id, Dist>, prev': map<Id, Id>, pq': multiset<Entry>): State
  {
    State(dist', prev', pq', s.rank[e.id := s.step], s.step + 1)
  }

  /**
   * What a step leaves alone: the extracted vertex is registered, was not
   * extracted before and is at its recorded distance; it and every vertex
   * extracted before keep their distances (each is at most the extracted
   * distance, which no non-negative edge improves on); the source stays at 0
   * without a predecessor.
   */
  ghost predicate Kept(V: set<Id>, src: Id, s: State, e: Entry, dist': map<Id, Dist>, prev': map<Id, Id>)
  {
    && e.id in V && e.id !in s.rank && e.id in s.dist && s.dist[e.id] == Finite(e.d)
    && (forall u :: u in s.rank ==> u in s.dist && s.dist[u].Finite? && s.dist[u].n <= e.d)
    && (forall u :: (u in s.rank || u == e.id) ==> u in dist' && dist'[u] == s.dist[u])
    && src in dist' && dist'[src] == Finite(0) && src !in prev'
  }

  lemma SettleKeeps(V: set<Id>, E: Edges, src: Id, s: State, e: Entry,
                    dist': map<Id, Dist>, prev': map<Id, Id>, pq': multiset<Entry>)
    requires Settling(V, E, s, e, dist', prev', pq')
    requires Shape(V, src, s) && FrontierSound(s) && SettledRelaxed(E, s) && SettledBelow(s)
    ensures Kept(V, src, s, e, dist', prev')
  {
    var x, d := e.id, e.d;
    assert s.dist[x] == Finite(d);
    assert forall u :: u in s.rank ==> s.dist[u].Finite? && s.dist[u].n <= d;
    forall u | u in s.rank || u == x
      ensures dist'[u] == s.dist[u]
    {
    }
  }

  /** A step keeps the frontier sound. */
  lemma SettleFrontier(V: set<Id>, E: Edges, src: Id, s: State, e: Entry,
                       dist': map<Id, Dist>, prev': map<Id, Id>, pq': multiset<Entry>)
    requires Settling(V, E, s, e, dist', prev', pq')
    requires Shape(V, src, s) && FrontierSound(s)
    ensures FrontierSound(After(s, e, dist', prev', pq'))
  {
    var pq1 := s.pq - multiset{e};
    forall f | f in pq'
      ensures f.id in dist' && dist'[f.id].Finite? && dist'[f.id].n <= f.d
    {
      if !Pushed(s.dist, dist', f) {
        assert f in pq1;
      }
    }
    forall f | f in pq' && f.id in dist' && dist'[f.id] == Finite(f.d)
      ensures pq'[f] == 1
    {
      if !Pushed(s.dist, dist', f) {
        assert pq'[f] == pq1[f] && f in s.pq;
      }
    }
  }

  /** A step keeps every reached, unextracted vertex waiting in the frontier. */
  lemma SettlePending(V: set<Id>, E: Edges, src: Id, s: State, e: Entry,
                      dist': map<Id, Dist>, prev': map<Id, Id>, pq': multiset<Entry>)
    requires Settling(V, E, s, e, dist', prev', pq')
    requires Shape(V, src, s) && Pending(s)
    ensures Pending(After(s, e, dist', prev', pq'))
  {
    var t := After(s, e, dist', prev', pq');
    forall v | v in dist' && dist'[v].Finite? && v !in t.rank
      ensures Entry(dist'[v].n, v) in pq'
    {
      if dist'[v] != s.dist[v] {
        assert Pushed(s.dist, dist', Entry(dist'[v].n, v));
      } else {
        assert Entry(s.dist[v].n, v) in s.pq;
        assert Entry(s.dist[v].n, v) in s.pq - multiset{e};
      }
    }
  }

  /** A step keeps every extracted vertex relaxed, the newly extracted one included. */
  lemma SettleRelaxed(V: set<Id>, E: Edges, src: Id, s: State, e: Entry,
                      dist': map<Id, Dist>, prev': map<Id, Id>, pq': multiset<Entry>)
    requires Settling(V, E, s, e, dist', prev', pq')
    requires Shape(V, src, s) && SettledRelaxed(E, s) && Kept(V, src, s, e, dist', prev')
    ensures SettledRelaxed(E, After(s, e, dist', prev', pq'))
  {
    var x, d := e.id, e.d;
    var t := After(s, e, dist', prev', pq');
    forall u | u in t.rank
      ensures Relaxed(E, dist', u)
    {
      forall w | w in Out(E, u)
        ensures w in dist' && dist'[w].Finite? && dist'[w].n <= dist'[u].n + Out(E, u)[w]
      {
        if u != x {
          assert Relaxed(E, s.dist, u);
        }
      }
    }
  }

  /** A step keeps the distance of every extracted vertex final, the newly extracted one included. */
  lemma SettleBelow(V: set<Id>, E: Edges, src: Id, s: State, e: Entry,
                    dist': map<Id, Dist>, prev': map<Id, Id>, pq': multiset<Entry>)
    requires Settling(V, E, s, e, dist', prev', pq')
    requires Shape(V, src, s) && FrontierSound(s) && SettledBelow(s) && Kept(V, src, s, e, dist', prev')
    ensures SettledBelow(After(s, e, dist', prev', pq'))
  {
    var x, d := e.id, e.d;
    var pq1 := s.pq - multiset{e};
    var t := After(s, e, dist', prev', pq');
    forall u, f | u in t.rank && u in dist' && dist'[u].Finite? && f in pq'
      ensures dist'[u].n <= f.d
    {
      if Pushed(s.dist, dist', f) {
        assert HasEdge(E, x, f.id);
      } else {
        assert f in pq1;
      }
    }
    forall f | f in pq' && f.id in t.rank
      ensures f.id in dist' && dist'[f.id].Finite? && dist'[f.id].n < f.d
    {
      assert f in pq1;
      assert f.id == x ==> f != e;
    }
  }

  /** A step keeps the predecessors a tree rooted at the source. */
  lemma SettleTree(V: set<Id>, E: Edges, src: Id, s: State, e: Entry,
                   dist': map<Id, Dist>, prev': map<Id, Id>, pq': multiset<Entry>)
    requires Settling(V, E, s, e, dist', prev', pq')
    requires Shape(V, src, s) && Tree(E, s) && Kept(V, src, s, e, dist', prev')
    requires forall u :: u in s.rank ==> s.rank[u] < s.step
    ensures Tree(E, After(s, e, dist', prev', pq'))
  {
    var t := After(s, e, dist', prev', pq');
    forall v | v in prev'
      ensures PrevEdge(E, dist', prev', v) && prev'[v] in t.rank
      ensures v in t.rank ==> t.rank[prev'[v]] < t.rank[v]
    {
      if v in dist' && dist'[v] != s.dist[v] {
        assert HasEdge(E, e.id, v);
      } else {
        assert v in s.prev && prev'[v] == s.prev[v];
      }
    }
  }

  /** A step leaves every reached vertex but the source with a predecessor. */
  lemma SettleParented(V: set<Id>, E: Edges, src: Id, s: State, e: Entry,
                       dist': map<Id, Dist>, prev': map<Id, Id>, pq': multiset<Entry>)
    requires Settling(V, E, s, e, dist', prev', pq')
    requires Shape(V, src, s) && Parented(src, s)
    ensures Parented(src, After(s, e, dist', prev', pq'))
  {
  }

  /**
   * Extracting a current entry `e` of smallest distance and relaxing the
   * edges out of its vertex preserves the invariant, with that vertex now
   * extracted; the vertex was registered and not extracted before.
   */
  lemma SettleInv(V: set<Id>, E: Edges, src: Id, s: State, e: Entry,
                  dist': map<Id, Dist>, prev': map<Id, Id>, pq': multiset<Entry>)
    requires Settling(V, E, s, e, dist', prev', pq')
    requires Inv(V, E, src, s)
    ensures |V - s.rank[e.id := s.step].Keys| < |V - s.rank.Keys|
    ensures Inv(V, E, src, After(s, e, dist', prev', pq'))
  {
    SettleKeeps(V, E, src, s, e, dist', prev', pq');
    SettleFrontier(V, E, src, s, e, dist', prev', pq');
    SettlePending(V, E, src, s, e, dist', prev', pq');
    SettleRelaxed(V, E, src, s, e, dist', prev', pq');
    SettleBelow(V, E, src, s, e, dist', prev', pq');
    SettleTree(V, E, src, s, e, dist', prev', pq');
    SettleParented(V, E, src, s, e, dist', prev', pq');
    FewerUnsettled(V, s.rank, e.id, s.step);
  }

  /** Settling one more registered vertex leaves fewer unsettled ones. */
  lemma FewerUnsettled(V: set<Id>, rank: map<Id, nat>, x: Id, n: nat)
    requires x in V && x !in rank
    ensures |V - rank[x := n].Keys| < |V - rank.Keys|
  {
    assert V - rank[x := n].Keys == (V - rank.Keys) - {x};
  }

  /**
   * The outcome of one round of the search loop, given the least entry `e`
   * it extracted: a stale entry is only removed from the frontier; any other
   * is removed and its vertex's outgoing edges are relaxed.
   */
  ghost predicate RoundResult(E: Edges, dist: map<Id, Dist>, prev: map<Id, Id>, pq: multiset<Entry>, e: Entry,
                              dist': map<Id, Dist>, prev': map<Id, Id>, pq': multiset<Entry>)
  {
    && IsMinEntry(e, pq) && e.id in dist
    && (Stale(e, dist[e.id]) ==> dist' == dist && prev' == prev && pq' == pq - multiset{e})
    && (!Stale(e, dist[e.id]) ==>
          RelaxedFrom(Out(E, e.id), e.id, e.d, dist, prev, pq - multiset{e}, dist', prev', pq'))
  }

  /** The ghost state after a round: a stale extraction settles nothing. */
  function Next(s: State, e: Entry, dist': map<Id, Dist>, prev': map<Id, Id>, pq': multiset<Entry>): (t: State)
    requires e.id in s.dist
    ensures t.dist == dist' && t.prev == prev' && t.pq == pq'
  {
    if Stale(e, s.dist[e.id]) then s.(dist := dist', prev := prev', pq := pq')
    else After(s, e, dist', prev', pq')
  }

  /**
   * In a round a recorded distance only ever drops, and each time a
   * predecessor is recorded and a matching entry pushed.
   */
  lemma RoundLowers(E: Edges, dist: map<Id, Dist>, prev: map<Id, Id>, pq: multiset<Entry>, e: Entry,
                    dist': map<Id, Dist>, prev': map<Id, Id>, pq': multiset<Entry>)
    requires RoundResult(E, dist, prev, pq, e, dist', prev', pq')
    ensures dist'.Keys == dist.Keys
    ensures forall v :: v in dist && dist'[v] != dist[v] ==>
              && dist'[v].Finite? && Improves(dist'[v].n, dist[v])
              && v in prev' && Entry(dist'[v].n, v) in pq'
  {
    forall v | v in dist && dist'[v] != dist[v]
      ensures Entry(dist'[v].n, v) in pq'
    {
      assert Pushed(dist, dist', Entry(dist'[v].n, v));
    }
  }

  /** A round keeps the invariant, and either settles a new vertex or shrinks the frontier. */
  lemma RoundInv(V: set<Id>, E: Edges, src: Id, s: State, e: Entry,
                 dist': map<Id, Dist>, prev': map<Id, Id>, pq': multiset<Entry>)
    requires WellFormed(V, E) && Inv(V, E, src, s)
    requires RoundResult(E, s.dist, s.prev, s.pq, e, dist', prev', pq')
    ensures Inv(V, E, src, Next(s, e, dist', prev', pq'))
    ensures || |V - Next(s, e, dist', prev', pq').rank.Keys| < |V - s.rank.Keys|
            || (Next(s, e, dist', prev', pq').rank == s.rank && |pq'| < |s.pq|)
  {
    if Stale(e, s.dist[e.id]) {
      StaleInv(V, E, src, s, e);
      assert Next(s, e, dist', prev', pq') == s.(pq := s.pq - multiset{e});
    } else {
      SettleInv(V, E, src, s, e, dist', prev', pq');
    }
  }

  /**
   * Once every reached vertex has its edges relaxed, the distance recorded
   * for the end of any path from a reached vertex is at most the start's
   * distance plus the path's cost.
   */
  lemma {:induction false} LowerBound(E: Edges, dist: map<Id, Dist>, p: seq<Id>)
    requires forall u :: u in dist && dist[u].Finite? ==> Relaxed(E, dist, u)
    requires IsPath(E, p) && p[0] in dist && dist[p[0]].Finite?
    ensures p[|p| - 1] in dist && dist[p[|p| - 1]].Finite?
    ensures dist[p[|p| - 1]].n <= dist[p[0]].n + PathCost(E, p)
    decreases |p|
  {
    if |p| > 1 {
      TailIsPath(E, p);
      assert Relaxed(E, dist, p[0]);
      assert p[1] in Out(E, p[0]);
      LowerBound(E, dist, p[1..]);
    }
  }

  /**
   * `p` is a walk along the predecessor map `prev`: each id is the recorded
   * predecessor of the next, and none is the empty string that ends a walk.
   */
  ghost predicate PredecessorWalk(prev: map<Id, Id>, p: seq<Id>)
  {
    && "" !in p
    && forall i {:trigger p[i]} :: 1 <= i < |p| ==> p[i] in prev && prev[p[i]] == p[i - 1]
  }

  /** Prepending the predecessor of a walk's first id, when it is not empty, extends the walk. */
  lemma WalkPrepend(prev: map<Id, Id>, u: Id, p: seq<Id>)
    requires PredecessorWalk(prev, p) && u != ""
    requires p != [] ==> p[0] in prev && prev[p[0]] == u
    ensures PredecessorWalk(prev, [u] + p)
  {
    var q := [u] + p;
    forall i | 1 <= i < |q|
      ensures q[i] in prev && prev[q[i]] == q[i - 1]
    {
      assert q[i] == p[i - 1];
    }
  }

  /**
   * Following predecessors back from a reached vertex gives a path from the
   * source whose cost is the distance recorded for that vertex.
   */
  lemma {:induction false} TreePath(E: Edges, src: Id, s: State, v: Id)
    requires src in s.dist && s.dist[src] == Finite(0)
    requires Tree(E, s) && Parented(src, s) && forall u :: u in s.rank ==> s.rank[u] < s.step
    requires v in s.dist && s.dist[v].Finite?
    ensures exists p :: IsPathFrom(E, p, src, v) && PathCost(E, p) == s.dist[v].n
    decreases if v in s.rank then s.rank[v] else s.step
  {
    if v == src {
      assert IsPathFrom(E, [src], src, v) && PathCost(E, [src]) == 0;
    } else {
      var u := s.prev[v];
      assert PrevEdge(E, s.dist, s.prev, v);
      TreePath(E, src, s, u);
      var q :| IsPathFrom(E, q, src, u) && PathCost(E, q) == s.dist[u].n;
      AppendEdge(E, q, v);
      assert IsPathFrom(E, q + [v], src, v);
    }
  }

  /**
   * Once the frontier is empty the search has answered: a vertex has a
   * finite distance exactly when it is reachable from the source, and then
   * that distance is the least cost of a path to it.
   */
  lemma Answers(V: set<Id>, E: Edges, src: Id, s: State)
    requires Inv(V, E, src, s) && s.pq == multiset{}
    ensures forall v :: v in s.dist ==> (s.dist[v].Finite? <==> Reachable(E, src, v))
    ensures forall v :: v in s.dist && s.dist[v].Finite? ==> IsMinCost(E, src, v, s.dist[v].n)
  {
    assert forall u :: u in s.dist && s.dist[u].Finite? ==> Relaxed(E, s.dist, u);
    forall v | v in s.dist
      ensures s.dist[v].Finite? <==> Reachable(E, src, v)
      ensures s.dist[v].Finite? ==> IsMinCost(E, src, v, s.dist[v].n)
    {
      if s.dist[v].Finite? {
        TreePath(E, src, s, v);
      }
      forall p | IsPathFrom(E, p, src, v)
        ensures s.dist[v].Finite? && s.dist[v].n <= PathCost(E, p)
      {
        LowerBound(E, s.dist, p);
      }
    }
  }
}
