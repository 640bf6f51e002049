/** All-pairs shortest paths by repeated relaxation through one more node, in place. */
module FloydWarshalls {
  import opened Base
  import opened Walks
  import opened Dijkstras

  /** The entry of `results[i][j]`, keyed by the pair. */
  type Rows<N(==)> = map<(N, N), Cell<N>>

  ghost predicate Square<N(!new)>(t: Rows<N>, nodes: set<N>) {
    forall i, j :: (i, j) in t <==> i in nodes && j in nodes
  }

  function At<N>(t: Rows<N>, i: N, j: N): Cell<N> {
    if (i, j) in t then t[(i, j)] else Cell(Inf, None)
  }

  function Set<N>(t: Rows<N>, i: N, j: N, c: Cell<N>): Rows<N> {
    t[(i, j) := c]
  }

  lemma SetAt<N(!new)>(t: Rows<N>, nodes: set<N>, i: N, j: N, c: Cell<N>)
    requires Square(t, nodes) && i in nodes && j in nodes
    ensures Square(Set(t, i, j, c), nodes)
    ensures At(Set(t, i, j, c), i, j) == c
    ensures forall x, y :: x != i || y != j ==> At(Set(t, i, j, c), x, y) == At(t, x, y)
  {
  }

  /** t with the row of u added. */
  function WithRow<N>(t: Rows<N>, u: N, row: map<N, Cell<N>>): Rows<N> {
    t + map j | j in row :: (u, j) := row[j]
  }

  lemma WithRowAt<N(!new)>(t: Rows<N>, us: set<N>, nodes: set<N>, u: N, row: map<N, Cell<N>>)
    requires row.Keys == nodes && forall i, j :: (i, j) in t <==> i in us && j in nodes
    ensures var t' := WithRow(t, u, row);
            && (forall i, j :: (i, j) in t' <==> i in us + {u} && j in nodes)
            && (forall i, j :: i != u ==> At(t', i, j) == At(t, i, j))
            && (forall j :: j in nodes ==> At(t', u, j) == row[j])
  {
  }

  ghost predicate NoNegativeCycle<N(!new), E(!new)>(g: Graph<N, E>, w: E -> real) {
    forall u, es :: u in g.nodes && IsWalk(g, u, es, u) ==> 0.0 <= Length(w, es)
  }

  // ---------- walks by position ----------

  /** The node reached after i steps. */
  ghost function NodeAt<N, E>(g: Graph<N, E>, u: N, es: seq<E>, i: nat): N
    requires i <= |es|
  {
    if i == 0 || es[0] !in g.edges then u else NodeAt(g, g.Other(es[0], u), es[1..], i - 1)
  }

  /** No node is passed twice, except that the walk may be closed. */
  ghost predicate Simple<N, E>(g: Graph<N, E>, u: N, es: seq<E>, v: N) {
    && IsWalk(g, u, es, v)
    && forall a, b :: 0 <= a < b <= |es| && (0 < a || b < |es|) ==> NodeAt(g, u, es, a) != NodeAt(g, u, es, b)
  }

  /** Every node strictly between the ends is in ks. */
  ghost predicate Via<N, E>(g: Graph<N, E>, u: N, es: seq<E>, ks: set<N>) {
    forall a :: 0 < a < |es| ==> NodeAt(g, u, es, a) in ks
  }

  lemma {:induction false} SplitAt<N(!new), E(!new)>(g: Graph<N, E>, w: E -> real, u: N, es: seq<E>, v: N, a: nat)
    requires IsWalk(g, u, es, v) && a <= |es|
    ensures var m := NodeAt(g, u, es, a);
            IsWalk(g, u, es[..a], m) && IsWalk(g, m, es[a..], v)
    ensures Length(w, es) == Length(w, es[..a]) + Length(w, es[a..])
    ensures forall x :: 0 <= x <= a ==> NodeAt(g, u, es[..a], x) == NodeAt(g, u, es, x)
    ensures forall x :: 0 <= x <= |es| - a ==>
              NodeAt(g, NodeAt(g, u, es, a), es[a..], x) == NodeAt(g, u, es, a + x)
    decreases |es|
  {
    if a == 0 {
      assert es[..0] == [] && es[0..] == es;
    } else {
      var o := g.Other(es[0], u);
      SplitAt(g, w, o, es[1..], v, a - 1);
      assert es[..a][1..] == es[1..][..a - 1] && es[1..][a - 1..] == es[a..];
    }
    WalkEdges(g, u, es, v);
    PrefixNodes(g, u, es, a);
    SuffixNodes(g, u, es, a);
  }

  lemma {:induction false} PrefixNodes<N, E>(g: Graph<N, E>, u: N, es: seq<E>, a: nat)
    requires a <= |es|
    ensures forall x :: 0 <= x <= a ==> NodeAt(g, u, es[..a], x) == NodeAt(g, u, es, x)
  {
    if a > 0 && es[0] in g.edges {
      PrefixNodes(g, g.Other(es[0], u), es[1..], a - 1);
      assert es[..a][1..] == es[1..][..a - 1];
    }
  }

  lemma {:induction false} SuffixNodes<N, E>(g: Graph<N, E>, u: N, es: seq<E>, a: nat)
    requires a <= |es| && forall e :: e in es ==> e in g.edges
    ensures forall x :: 0 <= x <= |es| - a ==> NodeAt(g, NodeAt(g, u, es, a), es[a..], x) == NodeAt(g, u, es, a + x)
  {
    if a > 0 {
      SuffixNodes(g, g.Other(es[0], u), es[1..], a - 1);
      assert es[1..][a - 1..] == es[a..];
    } else {
      assert es[0..] == es;
    }
  }

  lemma {:induction false} WalkEdges<N, E>(g: Graph<N, E>, u: N, es: seq<E>, v: N)
    requires IsWalk(g, u, es, v)
    ensures (forall e :: e in es ==> e in g.edges) && NodeAt(g, u, es, |es|) == v
  {
    if es != [] {
      WalkEdges(g, g.Other(es[0], u), es[1..], v);
    }
  }

  /** A walk either can be shortened to a simple one, or there is a simple negative cycle. */
  lemma {:induction false} Shorten<N(!new), E(!new)>(g: Graph<N, E>, w: E -> real, u: N, es: seq<E>, v: N)
    returns (x: N, fs: seq<E>, y: N)
    requires IsWalk(g, u, es, v)
    ensures Simple(g, x, fs, y)
    ensures (x == u && y == v && Length(w, fs) <= Length(w, es)) || (x == y && Length(w, fs) < 0.0)
    decreases |es|
  {
    if Simple(g, u, es, v) {
      return u, es, v;
    }
    var a, b :| 0 <= a < b <= |es| && (0 < a || b < |es|) && NodeAt(g, u, es, a) == NodeAt(g, u, es, b);
    var m := NodeAt(g, u, es, a);
    WalkEdges(g, u, es, v);
    SplitAt(g, w, u, es, v, b);
    SplitAt(g, w, u, es[..b], m, a);
    assert es[..b][..a] == es[..a] && es[..b][a..] == es[a..b];
    if Length(w, es[a..b]) < 0.0 {
      x, fs, y := Shorten(g, w, m, es[a..b], m);
    } else {
      WalkConcat(g, w, u, es[..a], m, es[b..], v);
      x, fs, y := Shorten(g, w, u, es[..a] + es[b..], v);
    }
  }

  // ---------- what the table promises ----------

  ghost predicate AtMost(d: Num, bound: Num) {
    !bound.Less(d)
  }

  /** Finite entries are lengths of walks; without negative cycles (`nn`), predecessors are right too. */
  ghost predicate SoundEntry<N(!new), E(!new)>(g: Graph<N, E>, w: E -> real, nn: bool, i: N, j: N, c: Cell<N>) {
    && (c.distance.Fin? ==> WalkOf(g, w, i, j, c.distance.v))
    && (i == j ==> AtMost(c.distance, Fin(0.0)))
    && (nn && i == j ==> c == Cell(Fin(0.0), None))
    && (nn && c.distance.Fin? && i != j ==>
          c.predecessor.Some? && LastStep(g, w, i, c.predecessor.value, j, c.distance.v))
  }

  ghost predicate SoundRows<N(!new), E(!new)>(g: Graph<N, E>, w: E -> real, nn: bool, t: Rows<N>) {
    && Square(t, g.nodes)
    && forall i, j :: i in g.nodes && j in g.nodes ==> SoundEntry(g, w, nn, i, j, At(t, i, j))
  }

  /** No simple walk through ks is shorter than the table says. */
  ghost predicate Complete<N(!new), E(!new)>(g: Graph<N, E>, w: E -> real, t: Rows<N>, ks: set<N>) {
    && Square(t, g.nodes)
    && forall i, es, j :: i in g.nodes && j in g.nodes && Simple(g, i, es, j) && Via(g, i, es, ks) ==>
         AtMost(At(t, i, j).distance, Fin(Length(w, es)))
  }

  /** t improves on t0, and takes the detour through k into account at (i, j). */
  ghost predicate Detoured<N>(t0: Rows<N>, t: Rows<N>, k: N, i: N, j: N)
  {
    AtMost(At(t, i, j).distance, At(t0, i, k).distance.Plus(At(t0, k, j).distance))
  }

  ghost predicate Improves<N>(t0: Rows<N>, t: Rows<N>, nodes: set<N>)
  {
    forall i, j :: i in nodes && j in nodes ==> AtMost(At(t, i, j).distance, At(t0, i, j).distance)
  }

  /** A simple walk through k splits there into two simple walks that avoid k in between. */
  lemma SimpleParts<N(!new), E(!new)>(g: Graph<N, E>, w: E -> real, ks: set<N>, k: N, i: N, es: seq<E>, j: N, a: nat)
    requires Simple(g, i, es, j) && Via(g, i, es, ks + {k}) && 0 < a < |es| && NodeAt(g, i, es, a) == k
    ensures Simple(g, i, es[..a], k) && Via(g, i, es[..a], ks)
    ensures Simple(g, k, es[a..], j) && Via(g, k, es[a..], ks)
    ensures Length(w, es) == Length(w, es[..a]) + Length(w, es[a..])
  {
    SplitAt(g, w, i, es, j, a);
    WalkEdges(g, i, es, j);
    forall x, y | 0 <= x < y <= |es| - a && (0 < x || y < |es| - a)
      ensures NodeAt(g, k, es[a..], x) != NodeAt(g, k, es[a..], y)
    {
      assert NodeAt(g, i, es, a + x) != NodeAt(g, i, es, a + y);
    }
    forall x | 0 < x < |es| - a ensures NodeAt(g, k, es[a..], x) in ks {
      assert NodeAt(g, i, es, a + x) != NodeAt(g, i, es, a);
    }
    forall x | 0 < x < a ensures NodeAt(g, i, es[..a], x) in ks {
      assert NodeAt(g, i, es, x) != NodeAt(g, i, es, a);
    }
  }

  lemma Bound<N(!new), E(!new)>(g: Graph<N, E>, w: E -> real, t: Rows<N>, ks: set<N>, i: N, es: seq<E>, j: N)
    requires Complete(g, w, t, ks) && i in g.nodes && j in g.nodes && Simple(g, i, es, j) && Via(g, i, es, ks)
    ensures AtMost(At(t, i, j).distance, Fin(Length(w, es)))
  {
    hide Simple, Via, Length, NodeAt;
  }

  lemma DetourShort<N(!new), E(!new)>(g: Graph<N, E>, w: E -> real, t0: Rows<N>, ks: set<N>, k: N, i: N, es: seq<E>, j: N, a: nat)
    requires Complete(g, w, t0, ks) && i in g.nodes && j in g.nodes && k in g.nodes
    requires Simple(g, i, es, j) && Via(g, i, es, ks + {k}) && 0 < a < |es| && NodeAt(g, i, es, a) == k
    ensures AtMost(At(t0, i, k).distance.Plus(At(t0, k, j).distance), Fin(Length(w, es)))
  {
    SimpleParts(g, w, ks, k, i, es, j, a);
    Bound(g, w, t0, ks, i, es[..a], k);
    Bound(g, w, t0, ks, k, es[a..], j);
    hide Simple, Via, Length, NodeAt, Complete;
  }

  /** One round of the outer loop opens one more node to the walks. */
  lemma Round<N(!new), E(!new)>(g: Graph<N, E>, w: E -> real, t0: Rows<N>, t: Rows<N>, ks: set<N>, k: N)
    requires g.Valid() && Complete(g, w, t0, ks) && Square(t, g.nodes) && k in g.nodes
    requires Improves(t0, t, g.nodes)
    requires forall i, j :: i in g.nodes && j in g.nodes ==> Detoured(t0, t, k, i, j)
    ensures Complete(g, w, t, ks + {k})
  {
    forall i, es, j | i in g.nodes && j in g.nodes && Simple(g, i, es, j) && Via(g, i, es, ks + {k})
      ensures AtMost(At(t, i, j).distance, Fin(Length(w, es)))
    {
      RoundEntry(g, w, t0, t, ks, k, i, es, j);
    }
  }

  lemma RoundEntry<N(!new), E(!new)>(g: Graph<N, E>, w: E -> real, t0: Rows<N>, t: Rows<N>, ks: set<N>, k: N, i: N, es: seq<E>, j: N)
    requires Complete(g, w, t0, ks) && Square(t, g.nodes) && k in g.nodes && i in g.nodes && j in g.nodes
    requires AtMost(At(t, i, j).distance, At(t0, i, j).distance) && Detoured(t0, t, k, i, j)
    requires Simple(g, i, es, j) && Via(g, i, es, ks + {k})
    ensures AtMost(At(t, i, j).distance, Fin(Length(w, es)))
  {
    hide Simple;
    if a :| 0 < a < |es| && NodeAt(g, i, es, a) == k {
      hide Complete;
      DetourShort(g, w, t0, ks, k, i, es, j, a);
    } else {
      assert Via(g, i, es, ks);
    }
  }

  /** Relaxing one entry keeps the table sound. */
  lemma RelaxSound<N(!new), E(!new)>(g: Graph<N, E>, w: E -> real, nn: bool, i: N, k: N, j: N, ik: Cell<N>, kj: Cell<N>, ij: Cell<N>)
    requires i in g.nodes && (nn ==> NoNegativeCycle(g, w)) && (k == j ==> ik == ij)
    requires SoundEntry(g, w, nn, i, k, ik) && SoundEntry(g, w, nn, k, j, kj) && SoundEntry(g, w, nn, i, j, ij)
    requires ik.distance.Plus(kj.distance).Less(ij.distance)
    ensures SoundEntry(g, w, nn, i, j, Cell(ik.distance.Plus(kj.distance), kj.predecessor))
  {
    var d := ik.distance.v + kj.distance.v;
    var p :| IsWalk(g, i, p, k) && Length(w, p) == ik.distance.v;
    var q :| IsWalk(g, k, q, j) && Length(w, q) == kj.distance.v;
    WalkConcat(g, w, i, p, k, q, j);
    if nn {
      var e :| e in g.Steps(kj.predecessor.value) && g.Other(e, kj.predecessor.value) == j &&
               WalkOf(g, w, k, kj.predecessor.value, kj.distance.v - w(e));
      var q' :| IsWalk(g, k, q', kj.predecessor.value) && Length(w, q') == kj.distance.v - w(e);
      WalkConcat(g, w, i, p, k, q', kj.predecessor.value);
      assert WalkOf(g, w, i, kj.predecessor.value, d - w(e));
    }
  }

  /** Without negative cycles no walk at all is shorter than the table says. */
  lemma BoundsWalks<N(!new), E(!new)>(g: Graph<N, E>, w: E -> real, t: Rows<N>, i: N, es: seq<E>, j: N)
    requires g.Valid() && Complete(g, w, t, g.nodes) && NoNegativeCycle(g, w)
    requires i in g.nodes && j in g.nodes && IsWalk(g, i, es, j)
    ensures AtMost(At(t, i, j).distance, Fin(Length(w, es)))
  {
    hide Simple, Via;
    var x, fs, y := Shorten(g, w, i, es, j);
    ClosedStart(g, w, x, fs, y);
    NodesStay(g, i, fs, j);
  }

  lemma ExactEntry<N(!new), E(!new)>(g: Graph<N, E>, w: E -> real, t: Rows<N>, i: N, j: N)
    requires g.Valid() && SoundRows(g, w, true, t) && Complete(g, w, t, g.nodes) && NoNegativeCycle(g, w)
    requires i in g.nodes && j in g.nodes
    ensures Exact(g, w, i, j, At(t, i, j))
  {
    forall es | IsWalk(g, i, es, j) ensures AtMost(At(t, i, j).distance, Fin(Length(w, es))) {
      BoundsWalks(g, w, t, i, es, j);
    }
    BoundedIsExact(g, w, i, j, At(t, i, j));
  }

  lemma BoundedIsExact<N(!new), E(!new)>(g: Graph<N, E>, w: E -> real, i: N, j: N, c: Cell<N>)
    requires SoundEntry(g, w, true, i, j, c)
    requires forall es :: IsWalk(g, i, es, j) ==> AtMost(c.distance, Fin(Length(w, es)))
    ensures Exact(g, w, i, j, c)
  {
    hide LastStep;
  }

  /** A closed walk of negative length starts at a node. */
  lemma ClosedStart<N(!new), E(!new)>(g: Graph<N, E>, w: E -> real, x: N, fs: seq<E>, y: N)
    requires g.Valid() && Simple(g, x, fs, y)
    ensures IsWalk(g, x, fs, y)
    ensures x == y && Length(w, fs) < 0.0 ==> x in g.nodes
  {
    if fs != [] {
      assert fs[0] in g.Steps(x);
    }
  }

  lemma NegativeDiagonal<N(!new), E(!new)>(g: Graph<N, E>, w: E -> real, t: Rows<N>)
    requires g.Valid() && Complete(g, w, t, g.nodes) && !NoNegativeCycle(g, w)
    ensures exists x :: x in g.nodes && At(t, x, x).distance.Less(Fin(0.0))
  {
    var u, es :| u in g.nodes && IsWalk(g, u, es, u) && Length(w, es) < 0.0;
    var x, fs, y := Shorten(g, w, u, es, u);
    ClosedStart(g, w, x, fs, y);
    NodesStay(g, x, fs, y);
    assert AtMost(At(t, x, x).distance, Fin(Length(w, fs)));
  }

  /** In a finished table every entry is exact, or some node has a negative distance to itself. */
  lemma FinishedTable<N(!new), E(!new)>(g: Graph<N, E>, w: E -> real, t: Rows<N>)
    requires g.Valid() && SoundRows(g, w, NoNegativeCycle(g, w), t) && Complete(g, w, t, g.nodes)
    ensures NoNegativeCycle(g, w) ==>
              forall i, j :: i in g.nodes && j in g.nodes ==> Exact(g, w, i, j, At(t, i, j))
    ensures NoNegativeCycle(g, w) <==> forall i :: i in g.nodes ==> !At(t, i, i).distance.Less(Fin(0.0))
  {
    hide Complete, Exact;
    if NoNegativeCycle(g, w) {
      forall i, j | i in g.nodes && j in g.nodes ensures Exact(g, w, i, j, At(t, i, j)) {
        ExactEntry(g, w, t, i, j);
      }
      forall i | i in g.nodes ensures !At(t, i, i).distance.Less(Fin(0.0)) {
        assert SoundEntry(g, w, true, i, i, At(t, i, i));
      }
    } else {
      NegativeDiagonal(g, w, t);
    }
  }

  /** A walk in a valid graph stays among its nodes. */
  lemma {:induction false} NodesStay<N, E>(g: Graph<N, E>, u: N, es: seq<E>, v: N)
    requires g.Valid() && u in g.nodes && IsWalk(g, u, es, v)
    ensures v in g.nodes && Via(g, u, es, g.nodes)
  {
    if es != [] {
      NodesStay(g, g.Other(es[0], u), es[1..], v);
      forall a | 0 < a < |es| ensures NodeAt(g, u, es, a) in g.nodes {
        assert NodeAt(g, u, es, a) == NodeAt(g, g.Other(es[0], u), es[1..], a - 1);
      }
    }
  }

  // ---------- the algorithm ----------

  /** What holds inside round k, when the pairs `done` have been relaxed. */
  ghost predicate InRound<N(!new), E(!new)>(g: Graph<N, E>, w: E -> real, nn: bool, t0: Rows<N>, t: Rows<N>, k: N, done: set<(N, N)>) {
    && k in g.nodes && SoundRows(g, w, nn, t) && Improves(t0, t, g.nodes)
    && forall i, j :: i in g.nodes && j in g.nodes && (i, j) in done ==> Detoured(t0, t, k, i, j)
  }

  lemma SumMonotone(a: Num, b: Num, c: Num, d: Num)
    requires AtMost(a, c) && AtMost(b, d)
    ensures AtMost(a.Plus(b), c.Plus(d))
  {
  }

  lemma RelaxPair<N(!new), E(!new)>(g: Graph<N, E>, w: E -> real, nn: bool, t0: Rows<N>, t: Rows<N>, k: N, done: set<(N, N)>, i: N, j: N)
    requires (nn ==> NoNegativeCycle(g, w)) && InRound(g, w, nn, t0, t, k, done) && i in g.nodes && j in g.nodes
    ensures var alt := At(t, i, k).distance.Plus(At(t, k, j).distance);
            var t' := if alt.Less(At(t, i, j).distance) then Set(t, i, j, Cell(alt, At(t, k, j).predecessor)) else t;
            InRound(g, w, nn, t0, t', k, done + {(i, j)})
  {
    hide NoNegativeCycle, At, Set, Square, SoundEntry, InRound;
    var alt := At(t, i, k).distance.Plus(At(t, k, j).distance);
    InRoundEntries(g, w, nn, t0, t, k, done, i, j);
    SumMonotone(At(t, i, k).distance, At(t, k, j).distance, At(t0, i, k).distance, At(t0, k, j).distance);
    if alt.Less(At(t, i, j).distance) {
      RelaxSound(g, w, nn, i, k, j, At(t, i, k), At(t, k, j), At(t, i, j));
      SetKeeps(g, w, nn, t0, t, k, done, i, j, Cell(alt, At(t, k, j).predecessor));
    } else {
      NoChange(g, w, nn, t0, t, k, done, i, j);
    }
  }

  lemma InRoundEntries<N(!new), E(!new)>(g: Graph<N, E>, w: E -> real, nn: bool, t0: Rows<N>, t: Rows<N>, k: N, done: set<(N, N)>, i: N, j: N)
    requires InRound(g, w, nn, t0, t, k, done) && i in g.nodes && j in g.nodes
    ensures SoundEntry(g, w, nn, i, k, At(t, i, k)) && SoundEntry(g, w, nn, k, j, At(t, k, j)) && SoundEntry(g, w, nn, i, j, At(t, i, j))
    ensures AtMost(At(t, i, k).distance, At(t0, i, k).distance) && AtMost(At(t, k, j).distance, At(t0, k, j).distance)
  {
    hide SoundEntry, At, Square, NoNegativeCycle;
  }

  lemma NoChange<N(!new), E(!new)>(g: Graph<N, E>, w: E -> real, nn: bool, t0: Rows<N>, t: Rows<N>, k: N, done: set<(N, N)>, i: N, j: N)
    requires InRound(g, w, nn, t0, t, k, done) && i in g.nodes && j in g.nodes
    requires AtMost(At(t, i, j).distance, At(t0, i, k).distance.Plus(At(t0, k, j).distance))
    ensures InRound(g, w, nn, t0, t, k, done + {(i, j)})
  {
    hide SoundRows, At, Square, Improves;
    assert Detoured(t0, t, k, i, j);
  }

  lemma SetKeeps<N(!new), E(!new)>(g: Graph<N, E>, w: E -> real, nn: bool, t0: Rows<N>, t: Rows<N>, k: N, done: set<(N, N)>, i: N, j: N, c: Cell<N>)
    requires InRound(g, w, nn, t0, t, k, done) && i in g.nodes && j in g.nodes
    requires SoundEntry(g, w, nn, i, j, c) && c.distance.Less(At(t, i, j).distance)
    requires AtMost(c.distance, At(t0, i, k).distance.Plus(At(t0, k, j).distance))
    ensures InRound(g, w, nn, t0, Set(t, i, j, c), k, done + {(i, j)})
  {
    hide SoundEntry, At, Set, Square;
    var t' := Set(t, i, j, c);
    SetAt(t, g.nodes, i, j, c);
    forall x, y | x in g.nodes && y in g.nodes && (x, y) in done + {(i, j)} ensures Detoured(t0, t', k, x, y) {
      if (x, y) != (i, j) {
        assert Detoured(t0, t, k, x, y);
      }
    }
  }

  method ThroughNode<N(==, !new), E(!new)>(g: Graph<N, E>, ghost w: E -> real, ghost nn: bool, nodes: seq<N>, k: N, t0: Rows<N>)
    returns (results: Rows<N>)
    requires Lists(nodes, g.nodes) && k in g.nodes && SoundRows(g, w, nn, t0) && (nn ==> NoNegativeCycle(g, w))
    ensures InRound(g, w, nn, t0, results, k, set i, j | i in g.nodes && j in g.nodes :: (i, j))
  {
    RoundStart(g, w, nn, t0, k);
    UptoEnds(nodes, g.nodes);
    hide SoundRows, NoNegativeCycle, InRound, At, Upto;
    results := t0;
    ghost var done: set<(N, N)> := {};
    for a := 0 to |nodes|
      invariant InRound(g, w, nn, t0, results, k, done) && Square(results, g.nodes)
      invariant forall i, j :: i in Upto(nodes, a) && j in g.nodes ==> (i, j) in done
    {
      UptoStep(nodes, g.nodes, a);
      results, done := ThroughRow(g, w, nn, nodes, k, t0, nodes[a], results, done);
    }
    RoundEnd(g, w, nn, t0, results, k, done);
  }

  method ThroughRow<N(==, !new), E(!new)>(g: Graph<N, E>, ghost w: E -> real, ghost nn: bool, nodes: seq<N>, k: N, ghost t0: Rows<N>,
      i: N, t: Rows<N>, ghost done0: set<(N, N)>)
    returns (results: Rows<N>, ghost done: set<(N, N)>)
    requires Lists(nodes, g.nodes) && i in g.nodes && (nn ==> NoNegativeCycle(g, w))
    requires InRound(g, w, nn, t0, t, k, done0)
    ensures InRound(g, w, nn, t0, results, k, done) && Square(results, g.nodes)
    ensures done0 <= done && forall j :: j in g.nodes ==> (i, j) in done
  {
    results, done := t, done0;
    assert Square(t, g.nodes) && k in g.nodes;
    hide NoNegativeCycle, InRound, At, Set, Upto, Square;
    UptoEnds(nodes, g.nodes);
    for b := 0 to |nodes|
      invariant InRound(g, w, nn, t0, results, k, done) && Square(results, g.nodes)
      invariant done0 <= done && forall j :: j in Upto(nodes, b) ==> (i, j) in done
    {
      UptoStep(nodes, g.nodes, b);
      var j := nodes[b];
      RelaxPair(g, w, nn, t0, results, k, done, i, j);
      var altDistance := At(results, i, k).distance.Plus(At(results, k, j).distance);
      if altDistance.Less(At(results, i, j).distance) {
        results := Set(results, i, j, Cell(altDistance, At(results, k, j).predecessor));
      }
      done := done + {(i, j)};
      InRoundSquare(g, w, nn, t0, results, k, done);
    }
  }

  lemma InRoundSquare<N(!new), E(!new)>(g: Graph<N, E>, w: E -> real, nn: bool, t0: Rows<N>, t: Rows<N>, k: N, done: set<(N, N)>)
    requires InRound(g, w, nn, t0, t, k, done)
    ensures Square(t, g.nodes)
  {
  }

  lemma RoundStart<N(!new), E(!new)>(g: Graph<N, E>, w: E -> real, nn: bool, t: Rows<N>, k: N)
    requires k in g.nodes && SoundRows(g, w, nn, t)
    ensures InRound(g, w, nn, t, t, k, {}) && Square(t, g.nodes)
  {
  }

  lemma RoundEnd<N(!new), E(!new)>(g: Graph<N, E>, w: E -> real, nn: bool, t0: Rows<N>, t: Rows<N>, k: N, done: set<(N, N)>)
    requires InRound(g, w, nn, t0, t, k, done)
    requires forall i, j :: i in g.nodes && j in g.nodes ==> (i, j) in done
    ensures InRound(g, w, nn, t0, t, k, set i, j | i in g.nodes && j in g.nodes :: (i, j))
  {
  }

  /** Row u before the rounds: zero to itself, and the lightest edge to each neighbour. */
  ghost predicate FirstRow<N(!new), E(!new)>(g: Graph<N, E>, w: E -> real, nn: bool, u: N, row: map<N, Cell<N>>, done: set<E>) {
    && u in g.nodes && row.Keys == g.nodes && done <= g.Steps(u)
    && (forall j :: j in g.nodes ==> SoundEntry(g, w, nn, u, j, row[j]))
    && (forall e :: e in done && g.Other(e, u) in row ==> AtMost(row[g.Other(e, u)].distance, Fin(w(e))))
  }

  lemma FirstRowStep<N(!new), E(!new)>(g: Graph<N, E>, w: E -> real, nn: bool, u: N, row: map<N, Cell<N>>, done: set<E>, e: E)
    requires g.Valid() && (nn ==> NoNegativeCycle(g, w)) && FirstRow(g, w, nn, u, row, done) && e in g.Steps(u)
    ensures g.Other(e, u) in row
    ensures var v := g.Other(e, u);
            FirstRow(g, w, nn, u, if Fin(w(e)).Less(row[v].distance) then row[v := Cell(Fin(w(e)), Some(u))] else row, done + {e})
  {
    var v := g.Other(e, u);
    NoSteps(g, w, u);
    WalkStep(g, w, u, u, 0.0, e);
    if Fin(w(e)).Less(row[v].distance) {
      assert WalkOf(g, w, u, u, w(e) - w(e));
      assert LastStep(g, w, u, u, v, w(e));
      if nn {
        assert u == v ==> 0.0 <= w(e);
      }
      assert SoundEntry(g, w, nn, u, v, Cell(Fin(w(e)), Some(u)));
    }
    hide SoundEntry, NoNegativeCycle;
  }

  method InitialRow<N(==, !new), E(==, !new)>(g: Graph<N, E>, weightFunc: E -> real, ghost nn: bool, nodes: seq<N>, u: N)
    returns (row: map<N, Cell<N>>)
    requires g.Valid() && Lists(nodes, g.nodes) && u in g.nodes && (nn ==> NoNegativeCycle(g, weightFunc))
    ensures FirstRow(g, weightFunc, nn, u, row, g.Steps(u))
  {
    hide NoNegativeCycle, FirstRow, Upto;
    row := map j | j in g.nodes :: if u != j then Cell(Inf, None) else Cell(Fin(0.0), None);
    EmptyRow(g, weightFunc, nn, u, row);
    var edges := Listing(g.Steps(u));
    UptoEnds(edges, g.Steps(u));
    for i := 0 to |edges|
      invariant FirstRow(g, weightFunc, nn, u, row, Upto(edges, i))
    {
      UptoStep(edges, g.Steps(u), i);
      var e := edges[i];
      FirstRowStep(g, weightFunc, nn, u, row, Upto(edges, i), e);
      var v := g.Other(e, u);
      var d := weightFunc(e);
      if Fin(d).Less(row[v].distance) {
        row := row[v := Cell(Fin(d), Some(u))];
      }
    }
  }

  lemma EmptyRow<N(!new), E(!new)>(g: Graph<N, E>, w: E -> real, nn: bool, u: N, row: map<N, Cell<N>>)
    requires u in g.nodes && row == map j | j in g.nodes :: if u != j then Cell(Inf, None) else Cell(Fin(0.0), None)
    ensures FirstRow(g, w, nn, u, row, {})
  {
    NoSteps(g, w, u);
  }

  ghost predicate RowOf<N>(t: Rows<N>, u: N, row: map<N, Cell<N>>) {
    forall j :: j in row ==> At(t, u, j) == row[j]
  }

  /** The first table covers the walks without inner nodes. */
  lemma FirstComplete<N(!new), E(!new)>(g: Graph<N, E>, w: E -> real, nn: bool, t: Rows<N>)
    requires Square(t, g.nodes)
    requires forall u :: u in g.nodes ==> exists row :: FirstRow(g, w, nn, u, row, g.Steps(u)) && RowOf(t, u, row)
    ensures SoundRows(g, w, nn, t) && Complete(g, w, t, {})
  {
    forall i, j | i in g.nodes && j in g.nodes ensures SoundEntry(g, w, nn, i, j, At(t, i, j)) {
      var row :| FirstRow(g, w, nn, i, row, g.Steps(i)) && RowOf(t, i, row);
    }
    forall i, es, j | i in g.nodes && j in g.nodes && Simple(g, i, es, j) && Via(g, i, es, {})
      ensures AtMost(At(t, i, j).distance, Fin(Length(w, es)))
    {
      var row :| FirstRow(g, w, nn, i, row, g.Steps(i)) && RowOf(t, i, row);
      FirstBound(g, w, nn, i, row, es, j);
    }
  }

  /** A walk of two steps or more has an inner node. */
  lemma SomeInner<N, E>(g: Graph<N, E>, u: N, es: seq<E>, a: nat, ks: set<N>)
    requires 0 < a < |es| && ks == {}
    ensures !Via(g, u, es, ks)
  {
    assert NodeAt(g, u, es, a) !in ks;
  }

  lemma FirstBound<N(!new), E(!new)>(g: Graph<N, E>, w: E -> real, nn: bool, i: N, row: map<N, Cell<N>>, es: seq<E>, j: N)
    requires FirstRow(g, w, nn, i, row, g.Steps(i)) && j in g.nodes && Simple(g, i, es, j) && Via(g, i, es, {})
    ensures AtMost(row[j].distance, Fin(Length(w, es)))
  {
    if |es| > 1 {
      SomeInner(g, i, es, |es| - 1, {});
    }
    if es == [] {
      assert SoundEntry(g, w, nn, i, j, row[j]);
    } else {
      assert es[1..] == [] && Length(w, es) == w(es[0]);
      assert IsWalk(g, g.Other(es[0], i), es[1..], j);
    }
  }

  method FloydWarshall<N(==, !new), E(==, !new)>(g: Graph<N, E>, weightFunc: E -> real) returns (results: Rows<N>)
    requires g.Valid()
    ensures Square(results, g.nodes)
    ensures NoNegativeCycle(g, weightFunc) ==>
              forall i, j :: i in g.nodes && j in g.nodes ==> Exact(g, weightFunc, i, j, At(results, i, j))
    ensures NoNegativeCycle(g, weightFunc) <==>
              forall i :: i in g.nodes ==> !At(results, i, i).distance.Less(Fin(0.0))
  {
    ghost var nn := NoNegativeCycle(g, weightFunc);
    var nodes := Listing(g.nodes);
    results := FirstTable(g, weightFunc, nn, nodes);
    hide NoNegativeCycle, SoundRows, Complete, InRound, Exact, Upto, At, Square;
    UptoEnds(nodes, g.nodes);
    for a := 0 to |nodes|
      invariant Square(results, g.nodes)
      invariant SoundRows(g, weightFunc, nn, results) && Complete(g, weightFunc, results, Upto(nodes, a))
    {
      UptoStep(nodes, g.nodes, a);
      ghost var before := results;
      results := ThroughNode(g, weightFunc, nn, nodes, nodes[a], results);
      RoundDone(g, weightFunc, nn, before, results, Upto(nodes, a), nodes[a]);
    }
    FinishedTable(g, weightFunc, results);
  }

  method FirstTable<N(==, !new), E(==, !new)>(g: Graph<N, E>, weightFunc: E -> real, ghost nn: bool, nodes: seq<N>) returns (results: Rows<N>)
    requires g.Valid() && Lists(nodes, g.nodes) && (nn ==> NoNegativeCycle(g, weightFunc))
    ensures SoundRows(g, weightFunc, nn, results) && Complete(g, weightFunc, results, {})
  {
    hide NoNegativeCycle, FirstRow, Upto, SoundRows, Complete, RowOf, At, WithRow;
    results := map[];
    UptoEnds(nodes, g.nodes);
    for a := 0 to |nodes|
      invariant forall i, j :: (i, j) in results <==> i in Upto(nodes, a) && j in g.nodes
      invariant forall u :: u in Upto(nodes, a) ==>
                  exists row :: FirstRow(g, weightFunc, nn, u, row, g.Steps(u)) && RowOf(results, u, row)
    {
      UptoStep(nodes, g.nodes, a);
      var row := InitialRow(g, weightFunc, nn, nodes, nodes[a]);
      RowKeys(g, weightFunc, nn, nodes[a], row);
      WithRowAt(results, Upto(nodes, a), g.nodes, nodes[a], row);
      AddFirstRow(g, weightFunc, nn, results, Upto(nodes, a), nodes[a], row);
      results := WithRow(results, nodes[a], row);
    }
    FirstComplete(g, weightFunc, nn, results);
  }

  lemma AddFirstRow<N(!new), E(!new)>(g: Graph<N, E>, w: E -> real, nn: bool, t: Rows<N>, us: set<N>, u: N, row: map<N, Cell<N>>)
    requires u !in us && us <= g.nodes && forall i, j :: (i, j) in t <==> i in us && j in g.nodes
    requires FirstRow(g, w, nn, u, row, g.Steps(u))
    requires forall v :: v in us ==> exists r :: FirstRow(g, w, nn, v, r, g.Steps(v)) && RowOf(t, v, r)
    ensures forall v :: v in us + {u} ==>
              exists r :: FirstRow(g, w, nn, v, r, g.Steps(v)) && RowOf(WithRow(t, u, row), v, r)
  {
    RowKeys(g, w, nn, u, row);
    hide FirstRow;
    WithRowAt(t, us, g.nodes, u, row);
    forall v | v in us + {u} ensures exists r :: FirstRow(g, w, nn, v, r, g.Steps(v)) && RowOf(WithRow(t, u, row), v, r) {
      if v == u {
        assert RowOf(WithRow(t, u, row), u, row);
      } else {
        var r :| FirstRow(g, w, nn, v, r, g.Steps(v)) && RowOf(t, v, r);
        assert RowOf(WithRow(t, u, row), v, r);
      }
    }
  }

  lemma RowKeys<N(!new), E(!new)>(g: Graph<N, E>, w: E -> real, nn: bool, u: N, row: map<N, Cell<N>>)
    requires FirstRow(g, w, nn, u, row, g.Steps(u))
    ensures row.Keys == g.nodes
  {
  }

  lemma RoundDone<N(!new), E(!new)>(g: Graph<N, E>, w: E -> real, nn: bool, t0: Rows<N>, t: Rows<N>, ks: set<N>, k: N)
    requires g.Valid() && Complete(g, w, t0, ks)
    requires InRound(g, w, nn, t0, t, k, set i, j | i in g.nodes && j in g.nodes :: (i, j))
    ensures SoundRows(g, w, nn, t) && Complete(g, w, t, ks + {k}) && Square(t, g.nodes)
  {
    hide Complete, SoundEntry;
    Round(g, w, t0, t, ks, k);
  }

  /** Dijkstra from every node. */
  method DijkstraAll<N(==, !new), E(==, !new)>(g: Graph<N, E>, weightFunc: E -> real) returns (r: Result<Rows<N>, string>)
    requires g.Valid()
    ensures r.Err? <==> exists u, e :: u in g.nodes && e in g.Steps(u) && weightFunc(e) < 0.0
    ensures r.Ok? ==> Square(r.value, g.nodes)
    ensures r.Ok? ==> forall i, j :: i in g.nodes && j in g.nodes ==> Exact(g, weightFunc, i, j, At(r.value, i, j))
  {
    hide Exact, NegativeWithinReach, Upto, At, WithRow;
    var results: Rows<N> := map[];
    var nodes := Listing(g.nodes);
    UptoEnds(nodes, g.nodes);
    for a := 0 to |nodes|
      invariant forall i, j :: (i, j) in results <==> i in Upto(nodes, a) && j in g.nodes
      invariant forall u :: u in Upto(nodes, a) ==> !NegativeWithinReach(g, weightFunc, u)
      invariant forall u, j :: u in Upto(nodes, a) && j in g.nodes ==> Exact(g, weightFunc, u, j, At(results, u, j))
    {
      UptoStep(nodes, g.nodes, a);
      var row := Dijkstra(g, nodes[a], weightFunc);
      if row.Err? {
        NegativeSomewhere(g, weightFunc, nodes[a]);
        return Err(row.error);
      }
      WithRowAt(results, Upto(nodes, a), g.nodes, nodes[a], row.value);
      results := WithRow(results, nodes[a], row.value);
    }
    forall u, e | u in g.nodes && e in g.Steps(u) ensures 0.0 <= weightFunc(e) {
      NegativeAt(g, weightFunc, u, e);
    }
    r := Ok(results);
  }

  lemma NegativeSomewhere<N(!new), E(!new)>(g: Graph<N, E>, w: E -> real, s: N)
    requires NegativeWithinReach(g, w, s)
    ensures exists u, e :: u in g.nodes && e in g.Steps(u) && w(e) < 0.0
  {
  }

  lemma NegativeAt<N(!new), E(!new)>(g: Graph<N, E>, w: E -> real, u: N, e: E)
    requires u in g.nodes && e in g.Steps(u)
    ensures w(e) < 0.0 ==> NegativeWithinReach(g, w, u)
  {
    assert IsWalk(g, u, [], u);
    assert Reaches(g, u, u);
  }

  /** Without negative weights there is no negative cycle. */
  lemma {:induction false} NonNegativeWalk<N(!new), E(!new)>(g: Graph<N, E>, w: E -> real, u: N, es: seq<E>, v: N)
    requires g.Valid() && u in g.nodes && IsWalk(g, u, es, v)
    requires forall u, e :: u in g.nodes && e in g.Steps(u) ==> 0.0 <= w(e)
    ensures 0.0 <= Length(w, es)
  {
    if es != [] {
      NonNegativeWalk(g, w, g.Other(es[0], u), es[1..], v);
    }
  }

  /** Where both algorithms apply, their distance tables are the same. */
  method BothAgree<N(==, !new), E(==, !new)>(g: Graph<N, E>, weightFunc: E -> real)
    returns (d: Result<Rows<N>, string>, f: Rows<N>)
    requires g.Valid()
    ensures Square(f, g.nodes)
    ensures d.Ok? ==> Square(d.value, g.nodes) &&
                      forall i, j :: i in g.nodes && j in g.nodes ==> At(d.value, i, j).distance == At(f, i, j).distance
  {
    d := DijkstraAll(g, weightFunc);
    f := FloydWarshall(g, weightFunc);
    if d.Ok? {
      forall u, es | u in g.nodes && IsWalk(g, u, es, u) ensures 0.0 <= Length(weightFunc, es) {
        NonNegativeWalk(g, weightFunc, u, es, u);
      }
      forall i, j | i in g.nodes && j in g.nodes ensures At(d.value, i, j).distance == At(f, i, j).distance {
        ExactUnique(g, weightFunc, i, j, At(d.value, i, j), At(f, i, j));
      }
    }
  }

  /** Exactness determines the distance. */
  lemma ExactUnique<N(!new), E(!new)>(g: Graph<N, E>, w: E -> real, i: N, j: N, c: Cell<N>, c': Cell<N>)
    requires Exact(g, w, i, j, c) && Exact(g, w, i, j, c')
    ensures c.distance == c'.distance
  {
    hide LastStep;
  }
}
