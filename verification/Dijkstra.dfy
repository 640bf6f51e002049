/** Single-source shortest paths on the keyed heap. */
module Dijkstras {
  import opened Base
  import opened Walks
  import opened PriorityQueues

  datatype Cell<N> = Cell(distance: Num, predecessor: Option<N>)

  /** The entry for v is right for walks from s: its distance is the length of a shortest walk,
      infinite when there is none, and its predecessor is the last node but one of such a walk. */
  ghost predicate Exact<N(!new), E(!new)>(g: Graph<N, E>, w: E -> real, s: N, v: N, cell: Cell<N>) {
    && (cell.distance.Inf? <==> !Reaches(g, s, v))
    && (cell.distance.Fin? ==>
          && WalkOf(g, w, s, v, cell.distance.v)
          && (forall es :: IsWalk(g, s, es, v) ==> cell.distance.v <= Length(w, es)))
    && (v == s ==> cell == Cell(Fin(0.0), None))
    && (cell.distance.Fin? && v != s ==>
          && cell.predecessor.Some?
          && LastStep(g, w, s, cell.predecessor.value, v, cell.distance.v))
  }

  /** A walk of length d from s to v ends with a step from p. */
  ghost predicate LastStep<N(!new), E(!new)>(g: Graph<N, E>, w: E -> real, s: N, p: N, v: N, d: real) {
    exists e :: e in g.Steps(p) && g.Other(e, p) == v && WalkOf(g, w, s, p, d - w(e))
  }

  /** A negative edge that a traversal from s meets. */
  ghost predicate NegativeWithinReach<N(!new), E(!new)>(g: Graph<N, E>, w: E -> real, s: N) {
    exists u, e :: u in g.nodes && s in g.nodes && Reaches(g, s, u) && e in g.Steps(u) && w(e) < 0.0
  }

  /** Every finite entry is witnessed by a walk. */
  ghost predicate Sound<N(!new), E(!new)>(g: Graph<N, E>, w: E -> real, s: N, results: map<N, Cell<N>>) {
    && results.Keys == g.nodes
    && (s in results ==> results[s] == Cell(Fin(0.0), None))
    && (forall v :: v in results && results[v].distance.Fin? ==>
          0.0 <= results[v].distance.v && WalkOf(g, w, s, v, results[v].distance.v))
    && (forall v :: v in results && results[v].distance.Fin? && v != s ==>
          && s in results
          && results[v].predecessor.Some?
          && LastStep(g, w, s, results[v].predecessor.value, v, results[v].distance.v))
  }

  /** No edge of `es` out of u leads to an entry that it would improve. */
  ghost predicate Relaxed<N, E>(g: Graph<N, E>, w: E -> real, results: map<N, Cell<N>>, u: N, es: set<E>)
    requires g.Valid() && results.Keys == g.nodes && es <= g.Steps(u) && u in results
  {
    forall e :: e in es ==>
      w(e) >= 0.0 && !results[u].distance.Plus(Fin(w(e))).Less(results[g.Other(e, u)].distance)
  }

  /** The queue holds the unsettled nodes; settled entries are finite and no larger than unsettled ones. */
  ghost predicate Frontier<N>(results: map<N, Cell<N>>, queued: map<N, Num>) {
    && queued.Keys <= results.Keys
    && (forall v :: v in queued ==> queued[v] == results[v].distance)
    && (forall u :: u in results && u !in queued ==> results[u].distance.Fin?)
    && (forall u, v :: u in results && u !in queued && v in queued ==>
          !results[v].distance.Less(results[u].distance))
  }

  ghost predicate AllRelaxed<N, E>(g: Graph<N, E>, w: E -> real, results: map<N, Cell<N>>, us: set<N>)
    requires g.Valid() && results.Keys == g.nodes
  {
    forall u :: u in us && u in results ==> Relaxed(g, w, results, u, g.Steps(u))
  }

  /** An entry that a settled node can improve is still queued. */
  lemma StillQueued<N(!new), E(!new)>(g: Graph<N, E>, w: E -> real, results: map<N, Cell<N>>, queued: map<N, Num>, u: N, e: E)
    requires g.Valid() && results.Keys == g.nodes && Frontier(results, queued)
    requires u in results && e in g.Steps(u) && w(e) >= 0.0 && Settling(results, queued, u)
    requires results[u].distance.Plus(Fin(w(e))).Less(results[g.Other(e, u)].distance)
    ensures g.Other(e, u) in queued
  {
  }

  /** u has just left the queue as a minimum. */
  ghost predicate Settling<N>(results: map<N, Cell<N>>, queued: map<N, Num>, u: N) {
    && u in results && u !in queued && results[u].distance.Fin?
    && forall a :: a in results && a !in queued ==> !results[u].distance.Less(results[a].distance)
  }

  lemma SoundStep<N(!new), E(!new)>(g: Graph<N, E>, w: E -> real, s: N, results: map<N, Cell<N>>, u: N, e: E)
    requires g.Valid() && Sound(g, w, s, results)
    requires u in results && results[u].distance.Fin? && e in g.Steps(u) && w(e) >= 0.0
    requires Fin(results[u].distance.v + w(e)).Less(results[g.Other(e, u)].distance)
    ensures Sound(g, w, s, results[g.Other(e, u) := Cell(Fin(results[u].distance.v + w(e)), Some(u))])
  {
    var v := g.Other(e, u);
    var d := results[u].distance.v + w(e);
    WalkStep(g, w, s, u, results[u].distance.v, e);
    assert LastStep(g, w, s, u, v, d) by {
      assert d - w(e) == results[u].distance.v;
    }
  }

  lemma FrontierStep<N(!new)>(results: map<N, Cell<N>>, queued: map<N, Num>, u: N, v: N, d: real)
    requires Frontier(results, queued) && Settling(results, queued, u)
    requires v in queued && results[u].distance.v <= d
    ensures Frontier(results[v := Cell(Fin(d), Some(u))], queued[v := Fin(d)])
    ensures Settling(results[v := Cell(Fin(d), Some(u))], queued[v := Fin(d)], u)
  {
  }

  /** Lowering an entry that is not among `us` keeps their edges relaxed. */
  lemma RelaxedStep<N(!new), E(!new)>(g: Graph<N, E>, w: E -> real, results: map<N, Cell<N>>, us: set<N>, v: N, c: Cell<N>)
    requires g.Valid() && results.Keys == g.nodes && AllRelaxed(g, w, results, us)
    requires v in results && v !in us && c.distance.Less(results[v].distance)
    ensures AllRelaxed(g, w, results[v := c], us)
  {
    forall a | a in us && a in results ensures Relaxed(g, w, results[v := c], a, g.Steps(a)) {
      assert Relaxed(g, w, results, a, g.Steps(a));
    }
  }

  /** Once nothing finite is queued, a walk from a settled node stays among settled nodes and is no
      shorter than the entries promise. */
  lemma {:induction false} WalkBound<N(!new), E(!new)>(g: Graph<N, E>, w: E -> real, results: map<N, Cell<N>>, queued: map<N, Num>,
      a: N, es: seq<E>, v: N)
    requires g.Valid() && results.Keys == g.nodes && Frontier(results, queued)
    requires forall b :: b in queued ==> queued[b] == Inf
    requires AllRelaxed(g, w, results, g.nodes - queued.Keys)
    requires a in results && a !in queued && IsWalk(g, a, es, v)
    ensures v in results && v !in queued && results[v].distance.v <= results[a].distance.v + Length(w, es)
  {
    if es != [] {
      assert Relaxed(g, w, results, a, g.Steps(a));
      WalkBound(g, w, results, queued, g.Other(es[0], a), es[1..], v);
    }
  }

  lemma Finished<N(!new), E(!new)>(g: Graph<N, E>, w: E -> real, s: N, results: map<N, Cell<N>>, queued: map<N, Num>)
    requires g.Valid() && Sound(g, w, s, results) && Frontier(results, queued)
    requires forall b :: b in queued ==> queued[b] == Inf
    requires AllRelaxed(g, w, results, g.nodes - queued.Keys)
    ensures !NegativeWithinReach(g, w, s)
    ensures s in g.nodes ==> forall v :: v in g.nodes ==> Exact(g, w, s, v, results[v])
    ensures s !in g.nodes ==> forall v :: v in g.nodes ==> results[v].distance == Inf
  {
    if s in g.nodes {
      forall es, v | IsWalk(g, s, es, v)
        ensures v in results && v !in queued && results[v].distance.v <= Length(w, es)
      {
        WalkBound(g, w, results, queued, s, es, v);
      }
      forall u, e | u in g.nodes && Reaches(g, s, u) && e in g.Steps(u) ensures w(e) >= 0.0 {
        assert Relaxed(g, w, results, u, g.Steps(u));
      }
      forall v | v in g.nodes ensures Exact(g, w, s, v, results[v]) {
      }
    }
  }

  function StartDistance<N(==)>(u: N, source: N): Num {
    if u == source then Fin(0.0) else Inf
  }

  /** All distances infinite but the source's, and every node queued under its distance. */
  method Initialise<N(==, !new)>(nodes: set<N>, source: N) returns (results: map<N, Cell<N>>, pq: PriorityQueue<N>)
    ensures fresh(pq) && pq.Valid()
    ensures results.Keys == pq.Contents().Keys == nodes
    ensures forall u :: u in nodes ==> results[u] == Cell(StartDistance(u, source), None)
    ensures forall u :: u in nodes ==> pq.Contents()[u] == StartDistance(u, source)
  {
    results := map[];
    pq := new PriorityQueue<N>();
    var us := Listing(nodes);
    for i := 0 to |us|
      invariant fresh(pq) && pq.Valid()
      invariant results.Keys == pq.Contents().Keys && results.Keys == set j | 0 <= j < i :: us[j]
      invariant forall u :: u in results ==> results[u] == Cell(StartDistance(u, source), None)
      invariant forall u :: u in results ==> pq.Contents()[u] == StartDistance(u, source)
    {
      var u := us[i];
      var distance := StartDistance(u, source);
      assert u !in results;
      results := results[u := Cell(distance, None)];
      var _ := pq.Add(u, distance);
    }
  }

  /** The least queued entry leaves the queue. */
  lemma LeastLeaves<N(!new)>(results: map<N, Cell<N>>, queued: map<N, Num>, u: N)
    requires Frontier(results, queued) && u in queued
    requires forall k :: k in queued ==> !queued[k].Less(queued[u])
    ensures results[u].distance == Inf ==> forall k :: k in queued ==> queued[k] == Inf
    ensures results[u].distance != Inf ==> Frontier(results, queued - {u}) && Settling(results, queued - {u}, u)
  {
  }

  lemma Started<N(!new), E(!new)>(g: Graph<N, E>, w: E -> real, s: N, results: map<N, Cell<N>>, queued: map<N, Num>)
    requires g.Valid() && results.Keys == queued.Keys == g.nodes
    requires forall u :: u in g.nodes ==> results[u] == Cell(StartDistance(u, s), None)
    requires forall u :: u in g.nodes ==> queued[u] == StartDistance(u, s)
    ensures Sound(g, w, s, results) && Frontier(results, queued) && AllRelaxed(g, w, results, {})
  {
    NoSteps(g, w, s);
  }

  method Dijkstra<N(==, !new), E(==, !new)>(g: Graph<N, E>, source: N, weightFunc: E -> real)
    returns (r: Result<map<N, Cell<N>>, string>)
    requires g.Valid()
    ensures r.Err? <==> NegativeWithinReach(g, weightFunc, source)
    ensures r.Ok? ==> r.value.Keys == g.nodes
    ensures r.Ok? && source in g.nodes ==>
              forall v :: v in g.nodes ==> Exact(g, weightFunc, source, v, r.value[v])
    ensures r.Ok? && source !in g.nodes ==> forall v :: v in g.nodes ==> r.value[v].distance == Inf
  {
    hide Sound, AllRelaxed, NegativeWithinReach, Frontier, Exact, Settling, Trying;
    var results, pq := Initialise(g.nodes, source);
    Started(g, weightFunc, source, results, pq.Contents());
    var size := pq.Size();
    assert g.nodes - pq.Contents().Keys == {};
    while size > 0
      invariant fresh(pq) && pq.Valid()
      invariant size == |pq.Contents()| && results.Keys == g.nodes && pq.Contents().Keys <= g.nodes
      invariant Sound(g, weightFunc, source, results) && Frontier(results, pq.Contents())
      invariant AllRelaxed(g, weightFunc, results, g.nodes - pq.Contents().Keys)
      decreases |pq.Contents()|
    {
      ghost var queued := pq.Contents();
      var u := pq.RemoveMin();
      LeastLeaves(results, queued, u);
      if results[u].distance == Inf {
        Finished(g, weightFunc, source, results, queued);
        return Ok(results);
      }
      var negative;
      TryFirst(g, weightFunc, source, results, queued, pq.Contents(), u);
      results, negative := RelaxAll(g, source, weightFunc, results, pq, u);
      if negative {
        return Err("dijkstra does not allow negative edge weights.");
      }
      Tried(g, weightFunc, source, results, pq.Contents(), u);
      size := pq.Size();
    }
    Finished(g, weightFunc, source, results, pq.Contents());
    r := Ok(results);
  }

  lemma NegativeFound<N(!new), E(!new)>(g: Graph<N, E>, w: E -> real, s: N, results: map<N, Cell<N>>, u: N, e: E)
    requires Sound(g, w, s, results) && u in results && results[u].distance.Fin?
    requires e in g.Steps(u) && w(e) < 0.0
    ensures NegativeWithinReach(g, w, s)
  {
    assert Reaches(g, s, u);
  }

  lemma RelaxedUnion<N, E>(g: Graph<N, E>, w: E -> real, results: map<N, Cell<N>>, us: set<N>, vs: set<N>, u: N)
    requires g.Valid() && results.Keys == g.nodes && u in g.nodes && vs <= us + {u}
    requires AllRelaxed(g, w, results, us) && Relaxed(g, w, results, u, g.Steps(u))
    ensures AllRelaxed(g, w, results, vs)
  {
  }

  /** What holds while the edges out of the node u just settled are tried; `done` are those tried. */
  ghost predicate Trying<N(!new), E(!new)>(g: Graph<N, E>, w: E -> real, s: N, results: map<N, Cell<N>>, queued: map<N, Num>,
      u: N, done: set<E>)
  {
    && g.Valid() && results.Keys == g.nodes && done <= g.Steps(u)
    && Sound(g, w, s, results) && Frontier(results, queued) && Settling(results, queued, u)
    && AllRelaxed(g, w, results, g.nodes - queued.Keys - {u}) && Relaxed(g, w, results, u, done)
  }

  lemma TryStep<N(!new), E(!new)>(g: Graph<N, E>, w: E -> real, s: N, results: map<N, Cell<N>>, queued: map<N, Num>,
      u: N, done: set<E>, e: E)
    requires Trying(g, w, s, results, queued, u, done) && e in g.Steps(u)
    ensures g.Other(e, u) in results
    ensures w(e) < 0.0 ==> NegativeWithinReach(g, w, s)
    ensures w(e) >= 0.0 ==>
              var v := g.Other(e, u);
              var d := results[u].distance.Plus(Fin(w(e)));
              if d.Less(results[v].distance)
              then v in queued && queued[v] == results[v].distance &&
                   Trying(g, w, s, results[v := Cell(d, Some(u))], queued[v := d], u, done + {e})
              else Trying(g, w, s, results, queued, u, done + {e})
  {
    hide Sound, AllRelaxed;
    var v := g.Other(e, u);
    var d := results[u].distance.Plus(Fin(w(e)));
    if w(e) < 0.0 {
      NegativeFound(g, w, s, results, u, e);
    } else if d.Less(results[v].distance) {
      StillQueued(g, w, results, queued, u, e);
      SoundStep(g, w, s, results, u, e);
      FrontierStep(results, queued, u, v, d.v);
      RelaxedStep(g, w, results, g.nodes - queued.Keys - {u}, v, Cell(d, Some(u)));
      assert queued[v := d].Keys == queued.Keys;
    }
  }

  lemma Tried<N(!new), E(!new)>(g: Graph<N, E>, w: E -> real, s: N, results: map<N, Cell<N>>, queued: map<N, Num>, u: N)
    requires Trying(g, w, s, results, queued, u, g.Steps(u))
    ensures Sound(g, w, s, results) && Frontier(results, queued)
    ensures AllRelaxed(g, w, results, g.nodes - queued.Keys)
  {
    RelaxedUnion(g, w, results, g.nodes - queued.Keys - {u}, g.nodes - queued.Keys, u);
  }

  lemma TryFirst<N(!new), E(!new)>(g: Graph<N, E>, w: E -> real, s: N, results: map<N, Cell<N>>, before: map<N, Num>,
      queued: map<N, Num>, u: N)
    requires g.Valid() && results.Keys == g.nodes && u in before && queued == before - {u}
    requires Sound(g, w, s, results) && Frontier(results, queued) && Settling(results, queued, u)
    requires AllRelaxed(g, w, results, g.nodes - before.Keys)
    ensures Trying(g, w, s, results, queued, u, {})
  {
    assert g.nodes - queued.Keys - {u} <= g.nodes - before.Keys;
  }

  /** Tries every edge out of the node u just settled; stops at a negative one. */
  method RelaxAll<N(==, !new), E(==, !new)>(g: Graph<N, E>, ghost source: N, weightFunc: E -> real,
      start: map<N, Cell<N>>, pq: PriorityQueue<N>, u: N)
    returns (results: map<N, Cell<N>>, negative: bool)
    requires pq.Valid() && start.Keys == g.nodes && u in g.nodes
    requires Trying(g, weightFunc, source, start, pq.Contents(), u, {})
    modifies pq
    ensures pq.Valid() && pq.Contents().Keys == old(pq.Contents().Keys) && results.Keys == g.nodes
    ensures negative ==> NegativeWithinReach(g, weightFunc, source)
    ensures !negative ==> Trying(g, weightFunc, source, results, pq.Contents(), u, g.Steps(u))
  {
    hide Trying, NegativeWithinReach;
    results, negative := start, false;
    var edges := Listing(g.Steps(u));
    ghost var done: set<E> := {};
    for i := 0 to |edges|
      invariant pq.Valid() && pq.Contents().Keys == old(pq.Contents().Keys) && results.Keys == g.nodes
      invariant Trying(g, weightFunc, source, results, pq.Contents(), u, done)
      invariant done == (set j | 0 <= j < i :: edges[j])
    {
      var e := edges[i];
      assert e in g.Steps(u);
      TryStep(g, weightFunc, source, results, pq.Contents(), u, done, e);
      var v := g.Other(e, u);
      var distance := results[u].distance.Plus(Fin(weightFunc(e)));
      if weightFunc(e) < 0.0 {
        negative := true;
        return;
      }
      if distance.Less(results[v].distance) {
        results := results[v := Cell(distance, Some(u))];
        var _ := pq.Decrease(v, distance);
      }
      done := done + {e};
    }
    assert done == g.Steps(u) by {
      forall e | e in g.Steps(u) ensures e in done {
        var j :| 0 <= j < |edges| && edges[j] == e;
      }
    }
  }
}
