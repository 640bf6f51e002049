/** Prim's minimum spanning tree. */
module Prims {
  import opened Base
  import opened Walks
  import opened PriorityQueues

  // ---------- trees ----------

  ghost predicate WalkIn<N(!new), E(!new)>(g: Graph<N, E>, t: set<E>, u: N, es: seq<E>, v: N) {
    IsWalk(g, u, es, v) && forall i :: 0 <= i < |es| ==> es[i] in t
  }

  /** The edges of t lead from u to v. */
  ghost predicate Joined<N(!new), E(!new)>(g: Graph<N, E>, t: set<E>, u: N, v: N) {
    exists es :: WalkIn(g, t, u, es, v)
  }

  ghost predicate Connected<N(!new), E(!new)>(g: Graph<N, E>) {
    forall u, v :: u in g.nodes && v in g.nodes ==> Reaches(g, u, v)
  }

  /** t joins all nodes, with one edge less than there are nodes. */
  ghost predicate SpanningTree<N(!new), E(!new)>(g: Graph<N, E>, t: set<E>) {
    && t <= g.edges.Keys && |t| + 1 == |g.nodes|
    && forall u, v :: u in g.nodes && v in g.nodes ==> Joined(g, t, u, v)
  }

  ghost function Weight<E(!new)>(w: E -> real, t: set<E>): real {
    if t == {} then 0.0 else var e :| e in t; w(e) + Weight(w, t - {e})
  }

  ghost predicate MinimumSpanningTree<N(!new), E(!new)>(g: Graph<N, E>, w: E -> real, t: set<E>) {
    SpanningTree(g, t) && forall s :: SpanningTree(g, s) ==> Weight(w, t) <= Weight(w, s)
  }

  lemma {:induction false} WeightWithout<E(!new)>(w: E -> real, t: set<E>, e: E)
    requires e in t
    ensures Weight(w, t) == w(e) + Weight(w, t - {e})
    decreases t
  {
    var f :| f in t && Weight(w, t) == w(f) + Weight(w, t - {f});
    if f != e {
      WeightWithout(w, t - {f}, e);
      WeightWithout(w, t - {e}, f);
      assert t - {f} - {e} == t - {e} - {f};
    }
  }

  lemma JoinedSelf<N(!new), E(!new)>(g: Graph<N, E>, t: set<E>, u: N)
    ensures Joined(g, t, u, u)
  {
    assert WalkIn(g, t, u, [], u);
  }

  lemma JoinedMore<N(!new), E(!new)>(g: Graph<N, E>, t: set<E>, t': set<E>, u: N, v: N)
    requires Joined(g, t, u, v) && t <= t'
    ensures Joined(g, t', u, v)
  {
    var es :| WalkIn(g, t, u, es, v);
    assert WalkIn(g, t', u, es, v);
  }

  lemma JoinedOn<N(!new), E(!new)>(g: Graph<N, E>, t: set<E>, u: N, v: N, x: N)
    requires Joined(g, t, u, v) && Joined(g, t, v, x)
    ensures Joined(g, t, u, x)
  {
    var p :| WalkIn(g, t, u, p, v);
    var q :| WalkIn(g, t, v, q, x);
    WalkConcat(g, (e: E) => 0.0, u, p, v, q, x);
    assert WalkIn(g, t, u, p + q, x);
  }

  lemma JoinedEdge<N(!new), E(!new)>(g: Graph<N, E>, t: set<E>, e: E, u: N)
    requires e in t && e in g.Steps(u)
    ensures Joined(g, t, u, g.Other(e, u))
  {
    assert [e][1..] == [];
    assert WalkIn(g, t, u, [e], g.Other(e, u));
  }

  /** In an undirected graph walks can be taken backwards. */
  lemma {:induction false} WalkBack<N(!new), E(!new)>(g: Graph<N, E>, t: set<E>, u: N, es: seq<E>, v: N)
    requires !g.directed && WalkIn(g, t, u, es, v)
    ensures Joined(g, t, v, u)
    decreases |es|
  {
    if es == [] {
      JoinedSelf(g, t, u);
    } else {
      var x := g.Other(es[0], u);
      assert WalkIn(g, t, x, es[1..], v);
      WalkBack(g, t, x, es[1..], v);
      assert es[0] in g.Steps(x) && g.Other(es[0], x) == u;
      JoinedEdge(g, t, es[0], x);
      JoinedOn(g, t, v, x, u);
    }
  }

  lemma JoinedBack<N(!new), E(!new)>(g: Graph<N, E>, t: set<E>, u: N, v: N)
    requires !g.directed && Joined(g, t, u, v)
    ensures Joined(g, t, v, u)
  {
    var es :| WalkIn(g, t, u, es, v);
    WalkBack(g, t, u, es, v);
  }

  lemma JoinedReaches<N(!new), E(!new)>(g: Graph<N, E>, t: set<E>, u: N, v: N)
    requires Joined(g, t, u, v)
    ensures Reaches(g, u, v)
  {
    var es :| WalkIn(g, t, u, es, v);
    assert IsWalk(g, u, es, v);
  }

  // ---------- exchanging edges ----------

  /** Without f, u and v are each joined to one end of f. */
  ghost predicate Around<N(!new), E(!new)>(g: Graph<N, E>, t: set<E>, f: E, u: N, v: N) {
    f in g.edges &&
    ((Joined(g, t - {f}, u, g.edges[f].u) && Joined(g, t - {f}, g.edges[f].v, v)) ||
     (Joined(g, t - {f}, u, g.edges[f].v) && Joined(g, t - {f}, g.edges[f].u, v)))
  }

  /** What joins u and v either does without f, or goes through f. */
  lemma {:induction false} Bypass<N(!new), E(!new)>(g: Graph<N, E>, t: set<E>, f: E, u: N, es: seq<E>, v: N)
    requires !g.directed && f in g.edges && WalkIn(g, t, u, es, v)
    ensures Joined(g, t - {f}, u, v) || Around(g, t, f, u, v)
    decreases |es|
  {
    JoinedSelf(g, t - {f}, u);
    if es != [] {
      var x := g.Other(es[0], u);
      assert WalkIn(g, t, x, es[1..], v);
      Bypass(g, t, f, x, es[1..], v);
      JoinedSelf(g, t - {f}, x);
      if es[0] != f {
        JoinedEdge(g, t - {f}, es[0], u);
        JoinedAll(g, t - {f}, u, x);
      }
    }
  }

  lemma JoinedAll<N(!new), E(!new)>(g: Graph<N, E>, t: set<E>, u: N, x: N)
    requires Joined(g, t, u, x)
    ensures forall v :: Joined(g, t, x, v) ==> Joined(g, t, u, v)
  {
    forall v | Joined(g, t, x, v) ensures Joined(g, t, u, v) {
      JoinedOn(g, t, u, x, v);
    }
  }

  /** If u and v are joined, but not without the edges of c, some single edge of c lies between them. */
  lemma {:induction false} Bridge<N(!new), E(!new)>(g: Graph<N, E>, t: set<E>, c: set<E>, u: N, v: N) returns (f: E)
    requires !g.directed && c <= t <= g.edges.Keys && Joined(g, t, u, v) && !Joined(g, t - c, u, v)
    ensures f in c && Around(g, t, f, u, v)
    decreases c
  {
    assert c == {} ==> t - c == t;
    f :| f in c;
    if Joined(g, t - {f}, u, v) {
      assert t - {f} - (c - {f}) == t - c;
      var f' := Bridge(g, t - {f}, c - {f}, u, v);
      AroundMore(g, t - {f}, t, f', u, v);
      f := f';
    } else {
      var es :| WalkIn(g, t, u, es, v);
      Bypass(g, t, f, u, es, v);
    }
  }

  lemma AroundMore<N(!new), E(!new)>(g: Graph<N, E>, t: set<E>, t': set<E>, f: E, u: N, v: N)
    requires Around(g, t, f, u, v) && t <= t'
    ensures Around(g, t', f, u, v)
  {
    var a, b := g.edges[f].u, g.edges[f].v;
    if Joined(g, t - {f}, u, a) && Joined(g, t - {f}, b, v) {
      JoinedMore(g, t - {f}, t' - {f}, u, a);
      JoinedMore(g, t - {f}, t' - {f}, b, v);
    } else {
      JoinedMore(g, t - {f}, t' - {f}, u, b);
      JoinedMore(g, t - {f}, t' - {f}, a, v);
    }
  }

  predicate Crosses<N(==), E(==)>(g: Graph<N, E>, inside: set<N>, e: E) {
    e in g.edges && (g.edges[e].u in inside <==> g.edges[e].v !in inside)
  }

  /** Without crossing edges a walk stays inside. */
  lemma {:induction false} Inside<N(!new), E(!new)>(g: Graph<N, E>, t: set<E>, inside: set<N>, u: N, es: seq<E>, v: N)
    requires !g.directed && WalkIn(g, t, u, es, v) && u in inside && forall e :: e in t ==> !Crosses(g, inside, e)
    ensures v in inside
    decreases |es|
  {
    if es != [] {
      var x := g.Other(es[0], u);
      assert !Crosses(g, inside, es[0]);
      assert WalkIn(g, t, x, es[1..], v);
      Inside(g, t, inside, x, es[1..], v);
    }
  }

  /** The exchange: a light crossing edge e can take the place of some crossing edge of the tree m. */
  lemma Exchange<N(!new), E(!new)>(g: Graph<N, E>, w: E -> real, m: set<E>, inside: set<N>, x: N, y: N, e: E) returns (f: E)
    requires !g.directed && g.Valid() && SpanningTree(g, m) && e !in m && e in g.Steps(x) && g.Other(e, x) == y
    requires x in inside && y !in inside && x in g.nodes && y in g.nodes
    requires forall h :: Crosses(g, inside, h) ==> w(e) <= w(h)
    ensures f in m && Crosses(g, inside, f) && SpanningTree(g, m - {f} + {e}) && Weight(w, m - {f} + {e}) <= Weight(w, m)
  {
    var c := set h | h in m && Crosses(g, inside, h);
    if Joined(g, m - c, x, y) {
      var es :| WalkIn(g, m - c, x, es, y);
      Inside(g, m - c, inside, x, es, y);
    }
    f := Bridge(g, m, c, x, y);
    var m' := m - {f} + {e};
    hide Joined, Crosses;
    forall p, q | p in g.nodes && q in g.nodes ensures Joined(g, m', p, q) {
      Rejoined(g, m, f, e, x, y, p, q);
    }
    WeightWithout(w, m, f);
    WeightWithout(w, m', e);
    assert m' - {e} == m - {f};
  }

  lemma Rejoined<N(!new), E(!new)>(g: Graph<N, E>, m: set<E>, f: E, e: E, x: N, y: N, p: N, q: N)
    requires !g.directed && Around(g, m, f, x, y) && e in g.Steps(x) && g.Other(e, x) == y && Joined(g, m, p, q)
    ensures Joined(g, m - {f} + {e}, p, q)
  {
    var a, b, m1, m' := g.edges[f].u, g.edges[f].v, m - {f}, m - {f} + {e};
    JoinedEdge(g, m', e, x);
    var es :| WalkIn(g, m, p, es, q);
    Bypass(g, m, f, p, es, q);
    hide IsWalk, WalkIn, Joined;
    AcrossBoth(g, m1, m', x, y, a, b);
    if Joined(g, m1, p, q) {
      JoinedMore(g, m1, m', p, q);
    } else if Joined(g, m1, p, a) && Joined(g, m1, b, q) {
      Through(g, m1, m', p, a, b, q);
    } else {
      Through(g, m1, m', p, b, a, q);
    }
  }

  lemma Through<N(!new), E(!new)>(g: Graph<N, E>, m: set<E>, m': set<E>, p: N, a: N, b: N, q: N)
    requires Joined(g, m, p, a) && Joined(g, m', a, b) && Joined(g, m, b, q) && m <= m'
    ensures Joined(g, m', p, q)
  {
    JoinedMore(g, m, m', p, a);
    JoinedMore(g, m, m', b, q);
    JoinedOn(g, m', p, a, b);
    JoinedOn(g, m', p, b, q);
  }

  lemma AcrossBoth<N(!new), E(!new)>(g: Graph<N, E>, m: set<E>, m': set<E>, x: N, y: N, a: N, b: N)
    requires !g.directed && m <= m' && Joined(g, m', x, y)
    requires (Joined(g, m, x, a) && Joined(g, m, b, y)) || (Joined(g, m, x, b) && Joined(g, m, a, y))
    ensures Joined(g, m', a, b) && Joined(g, m', b, a)
  {
    hide Joined;
    if Joined(g, m, x, a) && Joined(g, m, b, y) {
      JoinedBack(g, m, x, a);
      JoinedBack(g, m, b, y);
      Through(g, m, m', a, x, y, b);
      JoinedBack(g, m', a, b);
    } else {
      JoinedBack(g, m, x, b);
      JoinedBack(g, m, a, y);
      Through(g, m, m', b, x, y, a);
      JoinedBack(g, m', b, a);
    }
  }

  /** Some spanning tree that contains t is no heavier than s. */
  ghost predicate Matched<N(!new), E(!new)>(g: Graph<N, E>, w: E -> real, t: set<E>, s: set<E>) {
    exists m :: SpanningTree(g, m) && t <= m && Weight(w, m) <= Weight(w, s)
  }

  /** Every spanning tree can be matched by one that contains t. */
  ghost predicate Extendable<N(!new), E(!new)>(g: Graph<N, E>, w: E -> real, t: set<E>) {
    forall s {:trigger Matched(g, w, t, s)} :: SpanningTree(g, s) ==> Matched(g, w, t, s)
  }

  lemma ExtendableStart<N(!new), E(!new)>(g: Graph<N, E>, w: E -> real)
    ensures Extendable(g, w, {})
  {
    hide SpanningTree, Weight;
    forall s | SpanningTree(g, s) ensures Matched(g, w, {}, s) {
      assert {} <= s;
    }
  }

  lemma ExtendableStep<N(!new), E(!new)>(g: Graph<N, E>, w: E -> real, t: set<E>, inside: set<N>, x: N, y: N, e: E)
    requires !g.directed && g.Valid() && Extendable(g, w, t) && e in g.Steps(x) && g.Other(e, x) == y
    requires x in inside && y !in inside && x in g.nodes && y in g.nodes
    requires forall h :: Crosses(g, inside, h) ==> w(e) <= w(h)
    requires forall h :: h in t ==> !Crosses(g, inside, h)
    ensures Extendable(g, w, t + {e})
  {
    hide SpanningTree, Weight, Crosses;
    forall s | SpanningTree(g, s) ensures Matched(g, w, t + {e}, s) {
      assert Matched(g, w, t, s);
      var m :| SpanningTree(g, m) && t <= m && Weight(w, m) <= Weight(w, s);
      if e !in m {
        var f := Exchange(g, w, m, inside, x, y, e);
        assert t + {e} <= m - {f} + {e};
      } else {
        assert t + {e} <= m;
      }
    }
  }

  /** A spanning tree that every other can be matched by is a minimum one. */
  lemma ExtendableEnds<N(!new), E(!new)>(g: Graph<N, E>, w: E -> real, t: set<E>)
    requires SpanningTree(g, t) && Extendable(g, w, t)
    ensures MinimumSpanningTree(g, w, t)
  {
    var n := |g.nodes|;
    SizeOf(g, t);
    hide SpanningTree, Weight;
    forall s | SpanningTree(g, s) ensures Weight(w, t) <= Weight(w, s) {
      assert Matched(g, w, t, s);
      var m :| SpanningTree(g, m) && t <= m && Weight(w, m) <= Weight(w, s);
      SizeOf(g, m);
      SameSize(t, m);
    }
  }

  lemma SizeOf<N(!new), E(!new)>(g: Graph<N, E>, t: set<E>)
    requires SpanningTree(g, t)
    ensures |t| + 1 == |g.nodes|
  {
    hide Joined;
  }

  lemma {:induction false} SameSize<E>(t: set<E>, m: set<E>)
    requires t <= m && |t| == |m|
    ensures t == m
  {
    if e :| e in m && e !in t {
      assert |m - {e}| == |m| - 1;
      Smaller(t, m - {e});
    }
  }

  lemma {:induction false} Smaller<E>(t: set<E>, m: set<E>)
    requires t <= m
    ensures |t| <= |m|
    decreases t
  {
    if e :| e in t {
      Smaller(t - {e}, m - {e});
    }
  }

  // ---------- growing the tree ----------

  /** Each node with a parent is joined to it, inside the tree, by the edge via[v]. */
  ghost predicate Parented<N(!new), E(!new)>(g: Graph<N, E>, inside: set<N>, parents: map<N, N>, via: map<N, E>) {
    && via.Keys == parents.Keys
    && forall v :: v in parents ==>
         parents[v] in inside && via[v] in g.Steps(parents[v]) && g.Other(via[v], parents[v]) == v
  }

  ghost predicate Priced<N(!new), E(!new)>(w: E -> real, queue: map<N, Num>, parents: map<N, N>, via: map<N, E>) {
    via.Keys == parents.Keys && forall v :: v in queue ==> queue[v] == if v in parents then Fin(w(via[v])) else Inf
  }

  /** No edge between a queued node and the inside is lighter than the one noted; of u's edges, only those in done count. */
  ghost predicate Lightest<N(!new), E(!new)>(g: Graph<N, E>, w: E -> real, inside: set<N>, queue: map<N, Num>, via: map<N, E>, u: N, done: set<E>) {
    forall x, e :: x in inside && e in g.Steps(x) && g.Other(e, x) in queue && (x == u ==> e in done) ==>
      g.Other(e, x) in via && w(via[g.Other(e, x)]) <= w(e)
  }

  ghost predicate Trying<N(!new), E(!new)>(g: Graph<N, E>, w: E -> real, inside: set<N>, queue: map<N, Num>,
                                           parents: map<N, N>, via: map<N, E>, u: N, done: set<E>) {
    && g.Valid() && !g.directed && inside !! queue.Keys && inside + queue.Keys == g.nodes && u in inside && done <= g.Steps(u)
    && Parented(g, inside, parents, via) && Priced(w, queue, parents, via) && Lightest(g, w, inside, queue, via, u, done)
  }

  /** The edges of t make the inside a tree, and can be extended to a minimum spanning tree. */
  ghost predicate Grown<N(!new), E(!new)>(g: Graph<N, E>, w: E -> real, inside: set<N>, t: set<E>) {
    && t <= g.edges.Keys && |t| + 1 == |inside| && Extendable(g, w, t)
    && (forall e :: e in t ==> g.edges[e].u in inside && g.edges[e].v in inside)
    && (forall p, q :: p in inside && q in inside ==> Joined(g, t, p, q))
  }

  lemma ParentedStep<N(!new), E(!new)>(g: Graph<N, E>, inside: set<N>, parents: map<N, N>, via: map<N, E>, u: N, e: E, v: N)
    requires Parented(g, inside, parents, via) && u in inside && e in g.Steps(u) && v == g.Other(e, u)
    ensures Parented(g, inside, parents[v := u], via[v := e])
  {
  }

  lemma PricedStep<N(!new), E(!new)>(w: E -> real, queue: map<N, Num>, parents: map<N, N>, via: map<N, E>, u: N, e: E, v: N)
    requires Priced(w, queue, parents, via) && v in queue
    ensures Priced(w, queue[v := Fin(w(e))], parents[v := u], via[v := e])
  {
  }

  lemma LightestStep<N(!new), E(!new)>(g: Graph<N, E>, w: E -> real, inside: set<N>, queue: map<N, Num>, queue': map<N, Num>,
                                       via: map<N, E>, via': map<N, E>, u: N, done: set<E>, e: E, v: N)
    requires Lightest(g, w, inside, queue, via, u, done) && e in g.Steps(u) && v == g.Other(e, u) && queue'.Keys == queue.Keys
    requires v in queue ==> v in via' && w(via'[v]) <= w(e) && (v in via ==> w(via'[v]) <= w(via[v]))
    requires forall x :: x in via && x != v ==> x in via' && via'[x] == via[x]
    ensures Lightest(g, w, inside, queue', via', u, done + {e})
  {
  }

  /** Trying an edge e of u. */
  lemma TryStep<N(!new), E(!new)>(g: Graph<N, E>, w: E -> real, inside: set<N>, queue: map<N, Num>, parents: map<N, N>, via: map<N, E>,
                                  u: N, done: set<E>, e: E, v: N)
    requires Trying(g, w, inside, queue, parents, via, u, done) && e in g.Steps(u) && v == g.Other(e, u)
    ensures v in queue && Fin(w(e)).Less(queue[v]) ==>
        Trying(g, w, inside, queue[v := Fin(w(e))], parents[v := u], via[v := e], u, done + {e})
    ensures v in queue && Fin(w(e)).Less(queue[v]) ==> !queue[v].Less(Fin(w(e)))
    ensures !(v in queue && Fin(w(e)).Less(queue[v])) ==> Trying(g, w, inside, queue, parents, via, u, done + {e})
  {
    PriceOf(w, queue, parents, via, v);
    hide Parented, Priced, Lightest;
    if v in queue && Fin(w(e)).Less(queue[v]) {
      ParentedStep(g, inside, parents, via, u, e, v);
      PricedStep(w, queue, parents, via, u, e, v);
      assert queue[v := Fin(w(e))].Keys == queue.Keys;
      LightestStep(g, w, inside, queue, queue[v := Fin(w(e))], via, via[v := e], u, done, e, v);
    } else {
      LightestStep(g, w, inside, queue, queue, via, via, u, done, e, v);
    }
  }

  lemma PriceOf<N(!new), E(!new)>(w: E -> real, queue: map<N, Num>, parents: map<N, N>, via: map<N, E>, v: N)
    requires Priced(w, queue, parents, via)
    ensures parents.Keys == via.Keys && (v in queue ==> queue[v] == if v in parents then Fin(w(via[v])) else Inf)
  {
  }

  /** Tries every edge of u, which has just come inside. */
  method UpdateNeighbors<N(!new, ==), E(!new, ==)>(g: Graph<N, E>, weightFunc: E -> real, pq: PriorityQueue<N>, parents: map<N, N>, u: N,
                                                   ghost inside: set<N>, ghost via: map<N, E>)
    returns (parents': map<N, N>, ghost via': map<N, E>)
    requires pq.Valid() && Trying(g, weightFunc, inside, pq.Contents(), parents, via, u, {})
    modifies pq
    ensures pq.Valid() && pq.Contents().Keys == old(pq.Contents().Keys)
    ensures Trying(g, weightFunc, inside, pq.Contents(), parents', via', u, g.Steps(u))
  {
    hide Trying;
    parents', via' := parents, via;
    var es := Listing(g.Steps(u));
    UptoEnds(es, g.Steps(u));
    for i := 0 to |es|
      invariant pq.Valid() && pq.Contents().Keys == old(pq.Contents().Keys)
      invariant Trying(g, weightFunc, inside, pq.Contents(), parents', via', u, Upto(es, i))
    {
      var e := es[i];
      UptoStep(es, g.Steps(u), i);
      var v := g.Other(e, u);
      TryStep(g, weightFunc, inside, pq.Contents(), parents', via', u, Upto(es, i), e, v);
      var pri := pq.Priority(v);
      if pri.Some? {
        var edgeWeight := Fin(weightFunc(e));
        if edgeWeight.Less(pri.value) {
          parents' := parents'[v := u];
          via' := via'[v := e];
          var _ := pq.Decrease(v, edgeWeight);
        }
      }
    }
  }

  // ---------- taking the next node in ----------

  lemma NextTrying<N(!new), E(!new)>(g: Graph<N, E>, w: E -> real, inside: set<N>, queue: map<N, Num>, parents: map<N, N>, via: map<N, E>, v: N, u: N)
    requires Trying(g, w, inside, queue, parents, via, v, g.Steps(v)) && u in queue
    ensures Trying(g, w, inside + {u}, queue - {u}, parents, via, u, {})
  {
    assert Parented(g, inside + {u}, parents, via);
    assert Lightest(g, w, inside + {u}, queue - {u}, via, u, {});
  }

  lemma LightCut<N(!new), E(!new)>(g: Graph<N, E>, w: E -> real, inside: set<N>, queue: map<N, Num>, parents: map<N, N>, via: map<N, E>, v: N, u: N, h: E)
    requires Trying(g, w, inside, queue, parents, via, v, g.Steps(v)) && u in queue
    requires (forall k :: k in queue ==> !queue[k].Less(queue[u])) && Crosses(g, inside, h)
    ensures u in parents && u in via && w(via[u]) <= w(h)
  {
    var x := if g.edges[h].u in inside then g.edges[h].u else g.edges[h].v;
    assert h in g.Steps(x) && g.Other(h, x) in queue;
    PriceOf(w, queue, parents, via, u);
    PriceOf(w, queue, parents, via, g.Other(h, x));
  }

  lemma GrownStep<N(!new), E(!new)>(g: Graph<N, E>, w: E -> real, inside: set<N>, t: set<E>, x: N, u: N, e: E)
    requires g.Valid() && !g.directed && Grown(g, w, inside, t) && x in inside && u !in inside && e in g.Steps(x) && g.Other(e, x) == u
    requires inside <= g.nodes && forall h :: Crosses(g, inside, h) ==> w(e) <= w(h)
    ensures e !in t && Grown(g, w, inside + {u}, t + {e})
  {
    hide Joined, Extendable;
    var t', inside' := t + {e}, inside + {u};
    ExtendableStep(g, w, t, inside, x, u, e);
    JoinedEdge(g, t', e, x);
    JoinedBack(g, t', x, u);
    JoinedSelf(g, t', u);
    forall p, q | p in inside && q in inside ensures Joined(g, t', p, q) {
      JoinedMore(g, t, t', p, q);
    }
    forall p | p in inside ensures Joined(g, t', p, u) && Joined(g, t', u, p) {
      JoinedOn(g, t', p, x, u);
      JoinedOn(g, t', u, x, p);
    }
  }

  lemma GrownStart<N(!new), E(!new)>(g: Graph<N, E>, w: E -> real, u: N)
    ensures Grown(g, w, {u}, {})
  {
    ExtendableStart(g, w);
    JoinedSelf(g, {}, u);
  }

  lemma GrownEnds<N(!new), E(!new)>(g: Graph<N, E>, w: E -> real, t: set<E>)
    requires Grown(g, w, g.nodes, t)
    ensures MinimumSpanningTree(g, w, t) && Connected(g)
  {
    hide Joined, Extendable, Reaches;
    ExtendableEnds(g, w, t);
    forall p, q | p in g.nodes && q in g.nodes ensures Reaches(g, p, q) {
      JoinedReaches(g, t, p, q);
    }
  }

  /** A node that nothing leads to, with no lighter one left: the graph is not connected. */
  lemma CutOff<N(!new), E(!new)>(g: Graph<N, E>, w: E -> real, inside: set<N>, queue: map<N, Num>, parents: map<N, N>, via: map<N, E>, v: N, u: N)
    requires Trying(g, w, inside, queue, parents, via, v, g.Steps(v)) && u in queue && u !in parents
    requires forall k :: k in queue ==> !queue[k].Less(queue[u])
    ensures !Connected(g)
  {
    hide Trying;
    TryingNodes(g, w, inside, queue, parents, via, v);
    if Reaches(g, v, u) {
      var es :| IsWalk(g, v, es, u);
      var t := g.edges.Keys;
      WalkEdges(g, v, es, u);
      forall h | h in t ensures !Crosses(g, inside, h) {
        if Crosses(g, inside, h) {
          LightCut(g, w, inside, queue, parents, via, v, u, h);
        }
      }
      Inside(g, t, inside, v, es, u);
    }
  }

  lemma TryingNodes<N(!new), E(!new)>(g: Graph<N, E>, w: E -> real, inside: set<N>, queue: map<N, Num>, parents: map<N, N>, via: map<N, E>, v: N)
    requires Trying(g, w, inside, queue, parents, via, v, g.Steps(v))
    ensures g.Valid() && !g.directed && inside !! queue.Keys && inside + queue.Keys == g.nodes && v in inside
  {
  }

  lemma {:induction false} WalkEdges<N(!new), E(!new)>(g: Graph<N, E>, u: N, es: seq<E>, v: N)
    requires IsWalk(g, u, es, v)
    ensures WalkIn(g, g.edges.Keys, u, es, v)
    decreases |es|
  {
    if es != [] {
      WalkEdges(g, g.Other(es[0], u), es[1..], v);
    }
  }

  // ---------- the algorithm ----------

  ghost predicate SameEnds<N>(a: Arc<N>, b: Arc<N>) {
    (a.u == b.u && a.v == b.v) || (a.u == b.v && a.v == b.u)
  }

  /** The edges of result, numbered from 1, are copies of the picked edges of g. */
  ghost predicate Copies<N(!new), E(!new)>(g: Graph<N, E>, result: Graph<N, nat>, picked: seq<E>) {
    && !result.directed && result.nodes == g.nodes && (forall i :: i in result.edges <==> 1 <= i <= |picked|)
    && NoDup(picked) && forall i: nat :: IsCopy(g, result, picked, i)
  }

  ghost predicate IsCopy<N(!new), E(!new)>(g: Graph<N, E>, result: Graph<N, nat>, picked: seq<E>, i: nat) {
    1 <= i <= |picked| ==> i in result.edges && picked[i - 1] in g.edges && SameEnds(result.edges[i], g.edges[picked[i - 1]])
  }

  lemma CopiesStep<N(!new), E(!new)>(g: Graph<N, E>, result: Graph<N, nat>, picked: seq<E>, x: N, u: N, e: E)
    requires Copies(g, result, picked) && e in g.edges && e !in picked && e in g.Steps(x) && g.Other(e, x) == u
    ensures Copies(g, result.(edges := result.edges[|picked| + 1 := Arc(u, x)]), picked + [e])
  {
    var p, next := picked + [e], result.(edges := result.edges[|picked| + 1 := Arc(u, x)]);
    assert SameEnds(Arc(u, x), g.edges[e]);
    assert NoDup(p);
    assert forall i :: i in next.edges <==> 1 <= i <= |p|;
    forall i: nat ensures IsCopy(g, next, p, i) {
      assert IsCopy(g, result, picked, i);
    }
  }

  /** What holds between two rounds, once the first node, v say, has been taken in; t is the set of picked edges. */
  ghost predicate Rounds<N(!new), E(!new)>(g: Graph<N, E>, w: E -> real, inside: set<N>, queue: map<N, Num>, parents: map<N, N>, via: map<N, E>,
                                           v: N, result: Graph<N, nat>, picked: seq<E>) {
    && Trying(g, w, inside, queue, parents, via, v, g.Steps(v)) && Grown(g, w, inside, Picked(picked)) && Copies(g, result, picked)
  }

  ghost function Picked<E>(picked: seq<E>): set<E> {
    set e | e in picked
  }

  /** A node with a parent is taken in. */
  lemma RoundStep<N(!new), E(!new)>(g: Graph<N, E>, w: E -> real, inside: set<N>, queue: map<N, Num>, parents: map<N, N>, via: map<N, E>,
                                    v: N, result: Graph<N, nat>, picked: seq<E>, u: N)
    requires Rounds(g, w, inside, queue, parents, via, v, result, picked) && u in queue && u in parents
    requires forall k :: k in queue ==> !queue[k].Less(queue[u])
    ensures u in via && Trying(g, w, inside + {u}, queue - {u}, parents, via, u, {})
    ensures Grown(g, w, inside + {u}, Picked(picked + [via[u]]))
    ensures Copies(g, result.(edges := result.edges[|picked| + 1 := Arc(u, parents[u])]), picked + [via[u]])
  {
    hide Trying, Grown, Copies;
    NextTrying(g, w, inside, queue, parents, via, v, u);
    TryingNodes(g, w, inside, queue, parents, via, v);
    ParentOf(g, w, inside, queue, parents, via, v, u);
    var e := via[u];
    forall h | Crosses(g, inside, h) ensures w(e) <= w(h) {
      LightCut(g, w, inside, queue, parents, via, v, u, h);
    }
    GrownStep(g, w, inside, Picked(picked), parents[u], u, e);
    assert Picked(picked + [e]) == Picked(picked) + {e};
    assert e in g.edges && e !in picked;
    CopiesStep(g, result, picked, parents[u], u, e);
  }

  lemma ParentOf<N(!new), E(!new)>(g: Graph<N, E>, w: E -> real, inside: set<N>, queue: map<N, Num>, parents: map<N, N>, via: map<N, E>, v: N, u: N)
    requires Trying(g, w, inside, queue, parents, via, v, g.Steps(v)) && u in parents
    ensures u in via && parents[u] in inside && via[u] in g.Steps(parents[u]) && g.Other(via[u], parents[u]) == u
  {
    hide Priced, Lightest;
  }

  /** The queue before the first round: the start has priority zero, all others are infinitely far. */
  ghost predicate Starting<N(!new)>(nodes: set<N>, queue: map<N, Num>, start: N) {
    queue.Keys == nodes && start in nodes && forall v :: v in queue ==> queue[v] == if v == start then Fin(0.0) else Inf
  }

  lemma FirstRound<N(!new), E(!new)>(g: Graph<N, E>, w: E -> real, queue: map<N, Num>, start: N, u: N, result: Graph<N, nat>)
    requires g.Valid() && !g.directed && Starting(g.nodes, queue, start) && u in queue && (forall k :: k in queue ==> !queue[k].Less(queue[u]))
    requires result == Graph(false, g.nodes, map[])
    ensures Trying(g, w, {u}, queue - {u}, map[], map[], u, {}) && Grown(g, w, {u}, Picked([])) && Copies(g, result, [])
  {
    assert !queue[start].Less(queue[u]);
    assert u == start;
    GrownStart(g, w, u);
    assert Picked<E>([]) == {};
    assert Lightest(g, w, {u}, queue - {u}, map[], u, {});
  }

  /** Fills the queue. */
  method Prepare<N(!new, ==)>(nodes: set<N>) returns (pq: PriorityQueue<N>, ghost start: N)
    requires nodes != {}
    ensures fresh(pq) && pq.Valid() && Starting(nodes, pq.Contents(), start)
  {
    pq := new PriorityQueue();
    var us := Listing(nodes);
    UptoEnds(us, nodes);
    for i := 0 to |us|
      invariant fresh(pq) && pq.Valid() && pq.Contents().Keys == Upto(us, i)
      invariant forall v :: v in pq.Contents() ==> pq.Contents()[v] == Inf
    {
      UptoStep(us, nodes, i);
      var _ := pq.Add(us[i], Inf);
    }
    ListsSize(us, nodes);
    start := us[0];
    assert start in us;
    var _ := pq.Decrease(us[0], Fin(0.0));
  }

  /** The minimum spanning tree of an undirected graph, or an error exactly if the graph is not connected. The edges of the
      result are copies of the picked edges of g; of the empty graph the result is empty. */
  method Prim<N(!new, ==), E(!new, ==)>(g: Graph<N, E>, weightFunc: E -> real) returns (r: Result<Graph<N, nat>, string>, ghost picked: seq<E>)
    requires g.Valid() && !g.directed
    ensures r.Err? <==> !Connected(g)
    ensures r.Ok? ==> Copies(g, r.value, picked) && if g.nodes == {} then picked == [] else MinimumSpanningTree(g, weightFunc, Picked(picked))
  {
    hide Rounds, Trying, Grown, Copies, Starting, Connected, MinimumSpanningTree, Picked, Graph.Valid;
    picked := [];
    var result: Graph<N, nat> := Graph(false, g.nodes, map[]);
    if g.nodes == {} {
      NothingToDo(g, result);
      return Ok(result), [];
    }
    var pq, start := Prepare(g.nodes);
    var parents: map<N, N>, count, init := map[], 0, false;
    ghost var via: map<N, E>, inside, v := map[], {}, start;
    var size := pq.Size();
    while size > 0
      invariant fresh(pq) && pq.Valid() && size == |pq.Contents()| && count == |picked|
      invariant if init then Rounds(g, weightFunc, inside, pq.Contents(), parents, via, v, result, picked)
                else Starting(g.nodes, pq.Contents(), start) && parents == map[] && via == map[] && picked == [] && inside == {} &&
                     result == Graph(false, g.nodes, map[])
      invariant !init ==> size > 0
      decreases |pq.Contents()|
    {
      ghost var queue := pq.Contents();
      var u := pq.RemoveMin();
      if u in parents {
        RoundStep(g, weightFunc, inside, queue, parents, via, v, result, picked, u);
        count := count + 1;
        result := result.(edges := result.edges[count := Arc(u, parents[u])]);
        picked := picked + [via[u]];
      } else if init {
        CutOffHere(g, weightFunc, inside, queue, parents, via, v, result, picked, u);
        return Err("Input graph is not connected"), picked;
      } else {
        init := true;
        FirstRound(g, weightFunc, queue, start, u, result);
      }
      assert |queue - {u}| < |queue|;
      inside := inside + {u};
      v := u;
      parents, via := UpdateNeighbors(g, weightFunc, pq, parents, u, inside, via);
      RoundEnds(g, weightFunc, inside, pq.Contents(), parents, via, v, result, picked);
      SameCount(queue - {u}, pq.Contents());
      size := pq.Size();
    }
    AllInside(g, weightFunc, inside, pq.Contents(), parents, via, v, result, picked);
    r := Ok(result);
  }

  lemma NothingToDo<N(!new), E(!new)>(g: Graph<N, E>, result: Graph<N, nat>)
    requires g.nodes == {} && result == Graph(false, g.nodes, map[])
    ensures Connected(g) && Copies(g, result, [])
  {
  }

  lemma SameCount<N(!new)>(a: map<N, Num>, b: map<N, Num>)
    requires a.Keys == b.Keys
    ensures |a| == |b|
  {
    assert |a| == |a.Keys| && |b| == |b.Keys|;
  }

  lemma RoundEnds<N(!new), E(!new)>(g: Graph<N, E>, w: E -> real, inside: set<N>, queue: map<N, Num>, parents: map<N, N>, via: map<N, E>,
                                    v: N, result: Graph<N, nat>, picked: seq<E>)
    requires Trying(g, w, inside, queue, parents, via, v, g.Steps(v)) && Grown(g, w, inside, Picked(picked)) && Copies(g, result, picked)
    ensures Rounds(g, w, inside, queue, parents, via, v, result, picked)
  {
    hide Trying, Grown, Copies;
  }

  lemma CutOffHere<N(!new), E(!new)>(g: Graph<N, E>, w: E -> real, inside: set<N>, queue: map<N, Num>, parents: map<N, N>, via: map<N, E>,
                                     v: N, result: Graph<N, nat>, picked: seq<E>, u: N)
    requires Rounds(g, w, inside, queue, parents, via, v, result, picked) && u in queue && u !in parents
    requires forall k :: k in queue ==> !queue[k].Less(queue[u])
    ensures !Connected(g)
  {
    hide Trying, Grown, Copies;
    CutOff(g, w, inside, queue, parents, via, v, u);
  }

  lemma AllInside<N(!new), E(!new)>(g: Graph<N, E>, w: E -> real, inside: set<N>, queue: map<N, Num>, parents: map<N, N>, via: map<N, E>,
                                    v: N, result: Graph<N, nat>, picked: seq<E>)
    requires Rounds(g, w, inside, queue, parents, via, v, result, picked) && |queue| == 0
    ensures MinimumSpanningTree(g, w, Picked(picked)) && Connected(g) && Copies(g, result, picked)
  {
    hide Grown, Copies;
    TryingNodes(g, w, inside, queue, parents, via, v);
    assert queue.Keys == {};
    assert inside == g.nodes;
    GrownEnds(g, w, Picked(picked));
  }
}
