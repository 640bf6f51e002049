/** Directed and undirected multigraphs as values, and walks in them. */
module Walks {
  import opened Base

  datatype Arc<N> = Arc(u: N, v: N)

  datatype Graph<N, E> = Graph(directed: bool, nodes: set<N>, edges: map<E, Arc<N>>) {
    ghost predicate Valid() {
      forall e :: e in edges ==> edges[e].u in nodes && edges[e].v in nodes
    }

    /** The edges a traversal follows out of u: the out-edges of a digraph, the incident
        edges of an undirected graph. */
    function Steps(u: N): set<E> {
      set e | e in edges && (edges[e].u == u || (!directed && edges[e].v == u))
    }

    /** The far end of e, seen from u. */
    function Other(e: E, u: N): N
      requires e in edges
    {
      if edges[e].u != u then edges[e].u else edges[e].v
    }
  }

  /** es leads from u to v, edge by edge. */
  ghost predicate IsWalk<N, E>(g: Graph<N, E>, u: N, es: seq<E>, v: N) {
    if es == [] then u == v
    else es[0] in g.Steps(u) && IsWalk(g, g.Other(es[0], u), es[1..], v)
  }

  ghost function Length<E(!new)>(w: E -> real, es: seq<E>): real {
    if es == [] then 0.0 else w(es[0]) + Length(w, es[1..])
  }

  /** Some walk from u to v has length d. */
  ghost predicate WalkOf<N(!new), E(!new)>(g: Graph<N, E>, w: E -> real, u: N, v: N, d: real) {
    exists es :: IsWalk(g, u, es, v) && Length(w, es) == d
  }

  ghost predicate Reaches<N(!new), E(!new)>(g: Graph<N, E>, u: N, v: N) {
    exists es :: IsWalk(g, u, es, v)
  }

  lemma {:induction false} WalkConcat<N(!new), E(!new)>(g: Graph<N, E>, w: E -> real, a: N, p: seq<E>, b: N, q: seq<E>, c: N)
    requires IsWalk(g, a, p, b) && IsWalk(g, b, q, c)
    ensures IsWalk(g, a, p + q, c) && Length(w, p + q) == Length(w, p) + Length(w, q)
  {
    if p == [] {
      assert p + q == q;
    } else {
      WalkConcat(g, w, g.Other(p[0], a), p[1..], b, q, c);
      assert (p + q)[1..] == p[1..] + q;
    }
  }

  lemma OneStep<N(!new), E(!new)>(g: Graph<N, E>, w: E -> real, u: N, e: E)
    requires e in g.Steps(u)
    ensures IsWalk(g, u, [e], g.Other(e, u)) && Length(w, [e]) == w(e)
  {
    var rest: seq<E> := [e][1..];
    assert rest == [] && IsWalk(g, g.Other(e, u), rest, g.Other(e, u)) && Length(w, rest) == 0.0;
  }

  /** e leads from a to b or, in an undirected graph, back. */
  ghost predicate Hop<N, E>(g: Graph<N, E>, e: E, a: N, b: N) {
    e in g.edges && (g.edges[e] == Arc(a, b) || (!g.directed && g.edges[e] == Arc(b, a)))
  }

  /** es passes the nodes ns. */
  ghost predicate Passes<N, E>(g: Graph<N, E>, es: seq<E>, ns: seq<N>) {
    |ns| == |es| + 1 && forall i :: 0 <= i < |es| ==> Hop(g, es[i], ns[i], ns[i + 1])
  }

  /** A walk is a list of edges that passes some nodes, from the first to the last. */
  lemma {:induction false} WalkPasses<N(!new), E(!new)>(g: Graph<N, E>, u: N, es: seq<E>, v: N)
    ensures IsWalk(g, u, es, v) <==> exists ns :: Passes(g, es, ns) && ns[0] == u && ns[|es|] == v
  {
    if es == [] {
      assert u == v ==> Passes(g, es, [u]);
    } else {
      if IsWalk(g, u, es, v) {
        var w := g.Other(es[0], u);
        WalkPasses(g, w, es[1..], v);
        var ns :| Passes(g, es[1..], ns) && ns[0] == w && ns[|es| - 1] == v;
        PassesMore(g, u, es, ns);
        assert ([u] + ns)[|es|] == v;
      }
      if ns :| Passes(g, es, ns) && ns[0] == u && ns[|es|] == v {
        PassesRest(g, u, es, ns);
        WalkPasses(g, g.Other(es[0], u), es[1..], v);
        assert ns[1..][|es| - 1] == v;
      }
    }
  }

  lemma PassesMore<N(!new), E(!new)>(g: Graph<N, E>, u: N, es: seq<E>, ns: seq<N>)
    requires es != [] && es[0] in g.Steps(u) && Passes(g, es[1..], ns) && ns[0] == g.Other(es[0], u)
    ensures Passes(g, es, [u] + ns)
  {
    forall i | 0 <= i < |es| ensures Hop(g, es[i], ([u] + ns)[i], ([u] + ns)[i + 1]) {
      if i > 0 {
        assert Hop(g, es[1..][i - 1], ns[i - 1], ns[i]);
      }
    }
  }

  lemma PassesRest<N(!new), E(!new)>(g: Graph<N, E>, u: N, es: seq<E>, ns: seq<N>)
    requires es != [] && Passes(g, es, ns) && ns[0] == u
    ensures es[0] in g.Steps(u) && g.Other(es[0], u) == ns[1] && Passes(g, es[1..], ns[1..])
  {
    assert Hop(g, es[0], ns[0], ns[1]);
    forall i | 0 <= i < |es| - 1 ensures Hop(g, es[1..][i], ns[1..][i], ns[1..][i + 1]) {
      assert Hop(g, es[i + 1], ns[i + 1], ns[i + 2]);
    }
  }

  /** A walk can be extended by a step from its last node. */
  lemma WalkStep<N(!new), E(!new)>(g: Graph<N, E>, w: E -> real, s: N, u: N, d: real, e: E)
    requires WalkOf(g, w, s, u, d) && e in g.Steps(u)
    ensures WalkOf(g, w, s, g.Other(e, u), d + w(e))
  {
    var es :| IsWalk(g, s, es, u) && Length(w, es) == d;
    OneStep(g, w, u, e);
    WalkConcat(g, w, s, es, u, [e], g.Other(e, u));
  }

  lemma NoSteps<N(!new), E(!new)>(g: Graph<N, E>, w: E -> real, u: N)
    ensures WalkOf(g, w, u, u, 0.0)
  {
    assert IsWalk(g, u, [], u) && Length(w, []) == 0.0;
  }
}
