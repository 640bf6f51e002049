/** Tarjan's strongly connected components. */
module Tarjans {
  import opened Base
  import opened Walks

  datatype Entry = Entry(onStack: bool, lowlink: nat, index: nat)

  datatype State<N> = State(index: nat, stack: seq<N>, visited: map<N, Entry>, results: seq<seq<N>>) {
    function Idx(x: N): nat {
      if x in visited then visited[x].index else index
    }

    predicate On(x: N) {
      x in visited && visited[x].onStack
    }

    /** In a finished component. */
    predicate Popped(x: N) {
      x in visited && !visited[x].onStack
    }
  }

  function Successors<N, E>(g: Graph<N, E>, u: N): set<N> {
    set e | e in g.edges && g.edges[e].u == u :: g.edges[e].v
  }

  // ---------- reachability ----------

  lemma ReachesSelf<N(!new), E(!new)>(g: Graph<N, E>, u: N)
    ensures Reaches(g, u, u)
  {
    assert IsWalk(g, u, [], u);
  }

  lemma ReachesOn<N(!new), E(!new)>(g: Graph<N, E>, u: N, v: N, w: N)
    requires Reaches(g, u, v) && Reaches(g, v, w)
    ensures Reaches(g, u, w)
  {
    var p :| IsWalk(g, u, p, v);
    var q :| IsWalk(g, v, q, w);
    WalkConcat(g, (e: E) => 0.0, u, p, v, q, w);
  }

  lemma ReachesNext<N(!new), E(!new)>(g: Graph<N, E>, u: N, v: N)
    requires v in Successors(g, u)
    ensures Reaches(g, u, v)
  {
    var e :| e in g.edges && g.edges[e].u == u && g.edges[e].v == v;
    assert IsWalk(g, u, [e], v) by {
      assert [e][1..] == [];
    }
  }

  /** A set that no edge leaves is not left by walks either. */
  lemma {:induction false} ClosedWalk<N(!new), E(!new)>(g: Graph<N, E>, s: set<N>, u: N, es: seq<E>, v: N)
    requires g.directed && u in s && IsWalk(g, u, es, v)
    requires forall x, y :: x in s && y in Successors(g, x) ==> y in s
    ensures v in s
    decreases |es|
  {
    if es != [] {
      var y := g.Other(es[0], u);
      assert y in Successors(g, u);
      ClosedWalk(g, s, y, es[1..], v);
    }
  }

  lemma ClosedReach<N(!new), E(!new)>(g: Graph<N, E>, s: set<N>, u: N, v: N)
    requires g.directed && u in s && Reaches(g, u, v)
    requires forall x, y :: x in s && y in Successors(g, x) ==> y in s
    ensures v in s
  {
    var es :| IsWalk(g, u, es, v);
    ClosedWalk(g, s, u, es, v);
  }

  ghost predicate Mutual<N(!new), E(!new)>(g: Graph<N, E>, u: N, v: N) {
    Reaches(g, u, v) && Reaches(g, v, u)
  }

  /** c lists a strongly connected component: with any of its nodes, exactly those mutually reachable with it. */
  ghost predicate IsComponent<N(!new), E(!new)>(g: Graph<N, E>, c: seq<N>) {
    NoDup(c) && c != [] && forall x, y :: x in c ==> (y in c <==> y in g.nodes && Mutual(g, x, y))
  }

  // ---------- invariants ----------

  ghost predicate Numbered<N(!new), E(!new)>(g: Graph<N, E>, st: State<N>) {
    && st.visited.Keys <= g.nodes
    && (forall x :: x in st.visited ==> st.Idx(x) < st.index)
    && (forall x, y :: x in st.visited && y in st.visited && st.Idx(x) == st.Idx(y) ==> x == y)
    && (forall x :: x in st.stack <==> st.On(x))
    && (forall i, j :: 0 <= i < j < |st.stack| ==> st.Idx(st.stack[i]) < st.Idx(st.stack[j]))
  }

  /** Open nodes are on the stack; the successors of all others have been visited. */
  ghost predicate Coloured<N(!new), E(!new)>(g: Graph<N, E>, st: State<N>, open: set<N>) {
    && (forall x :: x in open ==> st.On(x))
    && (forall x, y :: x in st.visited && x !in open && y in Successors(g, x) ==> y in st.visited)
  }

  /** Older nodes of the stack reach newer ones; every one reaches an older one that is open. */
  ghost predicate Stacked<N(!new), E(!new)>(g: Graph<N, E>, st: State<N>, open: set<N>) {
    && (forall x, y :: st.On(x) && st.On(y) && st.Idx(x) <= st.Idx(y) ==> Reaches(g, x, y))
    && (forall y :: st.On(y) ==> exists x :: Anchors(g, st, open, x, y))
  }

  ghost predicate Anchors<N(!new), E(!new)>(g: Graph<N, E>, st: State<N>, open: set<N>, x: N, y: N) {
    x in open && st.Idx(x) <= st.Idx(y) && Reaches(g, y, x)
  }

  /** The components found so far partition the popped nodes, which no edge leaves. */
  ghost predicate Found<N(!new), E(!new)>(g: Graph<N, E>, st: State<N>) {
    && (forall x, y :: st.Popped(x) && y in Successors(g, x) ==> st.Popped(y))
    && (forall i :: 0 <= i < |st.results| ==> IsComponent(g, st.results[i]))
    && (forall x :: st.Popped(x) <==> exists i :: 0 <= i < |st.results| && x in st.results[i])
    && (forall i, j :: 0 <= i < j < |st.results| ==> forall x :: x in st.results[i] ==> x !in st.results[j])
  }

  ghost predicate Searching<N(!new), E(!new)>(g: Graph<N, E>, st: State<N>, open: set<N>) {
    g.directed && g.Valid() && Numbered(g, st) && Coloured(g, st, open) && Stacked(g, st, open) && Found(g, st)
  }

  /** What was visited before stays as it was, and what was on the stack stays below what is added. */
  ghost predicate Extends<N(!new)>(st: State<N>, st': State<N>) {
    && st.index <= st'.index && st.visited.Keys <= st'.visited.Keys
    && (forall x :: x in st.visited ==> st'.visited[x] == st.visited[x])
    && (forall x :: x in st'.visited && x !in st.visited ==> st'.Idx(x) >= st.index)
    && |st.stack| <= |st'.stack| && st'.stack[..|st.stack|] == st.stack
  }

  /** n is at most the number of any node on the stack of st that an edge leads back to from a node added since;
      of u, only the edges to `seen` count. */
  ghost predicate LowEnough<N(!new), E(!new)>(g: Graph<N, E>, st: State<N>, st': State<N>, u: N, seen: set<N>, n: nat) {
    forall x, y :: st'.On(x) && x !in st.visited && st.On(y) && y in Successors(g, x) && (x == u ==> y in seen) ==> n <= st.Idx(y)
  }

  /** n is the number of u, or of a node on the stack below u that u reaches. */
  ghost predicate LowReached<N(!new), E(!new)>(g: Graph<N, E>, st: State<N>, u: N, n: nat) {
    n <= st.Idx(u) && (n < st.Idx(u) ==> exists y :: st.On(y) && st.Idx(y) == n && Reaches(g, u, y))
  }

  /** u is open on top of st, and its successors in `seen` have been followed. */
  ghost predicate Following<N(!new), E(!new)>(g: Graph<N, E>, st: State<N>, cur: State<N>, open: set<N>, u: N, seen: set<N>) {
    && Searching(g, cur, open + {u}) && Extends(st, cur) && u !in st.visited && cur.On(u) && cur.Idx(u) == st.index
    && |st.stack| < |cur.stack| && cur.stack[|st.stack|] == u
    && LowReached(g, cur, u, cur.visited[u].lowlink) && LowEnough(g, st, cur, u, seen, cur.visited[u].lowlink)
    && seen <= cur.visited.Keys
  }

  // ---------- steps ----------

  function Push<N>(st: State<N>, u: N): State<N> {
    State(st.index + 1, st.stack + [u], st.visited[u := Entry(true, st.index, st.index)], st.results)
  }

  function Lowered<N>(st: State<N>, u: N, n: nat): State<N>
    requires u in st.visited
  {
    st.(visited := st.visited[u := st.visited[u].(lowlink := n)])
  }

  lemma Pushed<N(!new), E(!new)>(g: Graph<N, E>, st: State<N>, u: N)
    requires u !in st.visited
    ensures forall x :: x != u ==> Push(st, u).On(x) == st.On(x) && (x in st.visited ==> Push(st, u).Idx(x) == st.Idx(x))
    ensures forall x :: Push(st, u).Popped(x) <==> st.Popped(x)
    ensures Push(st, u).On(u) && Push(st, u).Idx(u) == st.index
    ensures forall x :: st.On(x) ==> x in st.visited
  {
  }

  lemma PushNumbered<N(!new), E(!new)>(g: Graph<N, E>, st: State<N>, u: N)
    requires Numbered(g, st) && u in g.nodes && u !in st.visited
    ensures Numbered(g, Push(st, u))
  {
    var st' := Push(st, u);
    Pushed(g, st, u);
    hide State.On, State.Idx;
    forall x ensures x in st'.stack <==> st'.On(x) {
      assert x in st'.stack <==> x in st.stack || x == u;
      assert st.On(x) ==> x != u;
    }
    forall i | 0 <= i < |st.stack| ensures st'.Idx(st.stack[i]) < st.index && st'.Idx(st.stack[i]) == st.Idx(st.stack[i]) {
      assert st.stack[i] in st.stack;
      assert st.On(st.stack[i]);
    }
  }

  lemma PushStacked<N(!new), E(!new)>(g: Graph<N, E>, st: State<N>, open: set<N>, u: N)
    requires Numbered(g, st) && Stacked(g, st, open) && u !in st.visited && forall x :: x in open ==> st.On(x) && Reaches(g, x, u)
    ensures Stacked(g, Push(st, u), open + {u})
  {
    var st' := Push(st, u);
    Pushed(g, st, u);
    assert forall x :: x in st.visited ==> st.Idx(x) < st.index;
    hide Reaches, State.On, State.Idx, Numbered, Push;
    ReachesSelf(g, u);
    forall x | st.On(x) ensures Reaches(g, x, u) {
      var a :| Anchors(g, st, open, a, x);
      ReachesOn(g, x, a, u);
    }
    forall y | st'.On(y) ensures exists x :: Anchors(g, st', open + {u}, x, y) {
      if y == u {
        assert Anchors(g, st', open + {u}, u, u);
      } else {
        assert st.On(y);
        var x :| Anchors(g, st, open, x, y);
        assert st.On(x) && x in st.visited;
        AnchorsOn(g, st, st', open, u, x, y);
      }
    }
  }

  lemma AnchorsOn<N(!new), E(!new)>(g: Graph<N, E>, st: State<N>, st': State<N>, open: set<N>, u: N, x: N, y: N)
    requires Anchors(g, st, open, x, y) && st'.Idx(x) == st.Idx(x) && st'.Idx(y) == st.Idx(y)
    ensures Anchors(g, st', open + {u}, x, y)
  {
    hide Reaches, State.Idx;
  }

  lemma PushFound<N(!new), E(!new)>(g: Graph<N, E>, st: State<N>, u: N)
    requires Found(g, st) && u !in st.visited
    ensures Found(g, Push(st, u))
  {
    hide IsComponent;
    var st' := Push(st, u);
    assert forall x :: st'.Popped(x) <==> st.Popped(x);
    hide State.Popped;
  }

  lemma PushNow<N(!new), E(!new)>(g: Graph<N, E>, st: State<N>, open: set<N>, u: N)
    requires Searching(g, st, open) && u in g.nodes && u !in st.visited && forall x :: x in open ==> Reaches(g, x, u)
    ensures Following(g, st, Push(st, u), open, u, {})
  {
    hide Numbered, Stacked, Found, Reaches;
    PushNumbered(g, st, u);
    PushStacked(g, st, open, u);
    PushFound(g, st, u);
    assert (st.stack + [u])[..|st.stack|] == st.stack;
    PushExtends(g, st, u);
  }

  lemma PushExtends<N(!new), E(!new)>(g: Graph<N, E>, st: State<N>, u: N)
    requires u !in st.visited && Numbered(g, st)
    ensures Extends(st, Push(st, u))
    ensures LowReached(g, Push(st, u), u, st.index) && LowEnough(g, st, Push(st, u), u, {}, st.index)
  {
    assert (st.stack + [u])[..|st.stack|] == st.stack;
  }

  /** st' differs from st only in lowlinks. */
  ghost predicate Alike<N(!new)>(st: State<N>, st': State<N>) {
    && st'.visited.Keys == st.visited.Keys && st'.stack == st.stack && st'.index == st.index && st'.results == st.results
    && (forall x :: st'.On(x) == st.On(x) && st'.Idx(x) == st.Idx(x) && st'.Popped(x) == st.Popped(x))
  }

  lemma AlikeNumbered<N(!new), E(!new)>(g: Graph<N, E>, st: State<N>, st': State<N>)
    requires Numbered(g, st) && Alike(st, st')
    ensures Numbered(g, st')
  {
    hide State.On, State.Idx, State.Popped;
  }

  lemma AlikeColoured<N(!new), E(!new)>(g: Graph<N, E>, st: State<N>, st': State<N>, open: set<N>)
    requires Coloured(g, st, open) && Alike(st, st')
    ensures Coloured(g, st', open)
  {
    hide State.On, State.Idx, State.Popped;
  }

  lemma AlikeStacked<N(!new), E(!new)>(g: Graph<N, E>, st: State<N>, st': State<N>, open: set<N>)
    requires Stacked(g, st, open) && Alike(st, st')
    ensures Stacked(g, st', open)
  {
    hide State.On, State.Idx, State.Popped, Reaches;
    forall y | st'.On(y) ensures exists x :: Anchors(g, st', open, x, y) {
      var x :| Anchors(g, st, open, x, y);
      assert Anchors(g, st', open, x, y);
    }
  }

  lemma AlikeFound<N(!new), E(!new)>(g: Graph<N, E>, st: State<N>, st': State<N>)
    requires Found(g, st) && Alike(st, st')
    ensures Found(g, st')
  {
    hide State.On, State.Idx, State.Popped, IsComponent;
  }

  lemma LoweredAlike<N(!new)>(st: State<N>, u: N, n: nat)
    requires u in st.visited
    ensures Alike(st, Lowered(st, u, n))
  {
  }

  /** The lowlinks do not matter to the invariants. */
  lemma AlikeSearching<N(!new), E(!new)>(g: Graph<N, E>, st: State<N>, st': State<N>, open: set<N>)
    requires Searching(g, st, open) && Alike(st, st')
    ensures Searching(g, st', open)
  {
    hide Numbered, Coloured, Stacked, Found, Alike;
    AlikeNumbered(g, st, st');
    AlikeColoured(g, st, st', open);
    AlikeStacked(g, st, st', open);
    AlikeFound(g, st, st');
  }

  // ---------- following an edge ----------

  /** What a visit to v, from cur to nxt, has established. */
  ghost predicate Visited<N(!new), E(!new)>(g: Graph<N, E>, cur: State<N>, nxt: State<N>, v: N) {
    && Extends(cur, nxt) && v in nxt.visited && LowReached(g, nxt, v, nxt.visited[v].lowlink)
    && LowEnough(g, cur, nxt, v, Successors(g, v), nxt.visited[v].lowlink)
  }

  lemma FollowingParts<N(!new), E(!new)>(g: Graph<N, E>, st: State<N>, cur: State<N>, open: set<N>, u: N, seen: set<N>)
    requires Following(g, st, cur, open, u, seen)
    ensures Searching(g, cur, open + {u}) && Extends(st, cur) && u !in st.visited && cur.On(u) && cur.Idx(u) == st.index
    ensures u in cur.visited && LowReached(g, cur, u, cur.visited[u].lowlink) && LowEnough(g, st, cur, u, seen, cur.visited[u].lowlink)
    ensures |st.stack| < |cur.stack| && cur.stack[|st.stack|] == u && seen <= cur.visited.Keys
  {
    hide Searching, Extends, LowReached, LowEnough;
  }

  lemma SearchingParts<N(!new), E(!new)>(g: Graph<N, E>, st: State<N>, open: set<N>)
    requires Searching(g, st, open)
    ensures g.directed && g.Valid() && Numbered(g, st) && Coloured(g, st, open) && Stacked(g, st, open) && Found(g, st)
  {
    hide Numbered, Coloured, Stacked, Found;
  }

  lemma SuccessorIn<N(!new), E(!new)>(g: Graph<N, E>, u: N, v: N)
    requires g.Valid() && v in Successors(g, u)
    ensures v in g.nodes
  {
  }

  lemma ToChild<N(!new), E(!new)>(g: Graph<N, E>, st: State<N>, cur: State<N>, open: set<N>, u: N, seen: set<N>, v: N)
    requires Following(g, st, cur, open, u, seen) && v in Successors(g, u) && forall x :: x in open ==> Reaches(g, x, u)
    ensures v in g.nodes && forall x :: x in open + {u} ==> Reaches(g, x, v)
  {
    hide *;
    FollowingParts(g, st, cur, open, u, seen);
    SearchingParts(g, cur, open + {u});
    SuccessorIn(g, u, v);
    ReachesNext(g, u, v);
    forall x | x in open + {u} ensures Reaches(g, x, v) {
      if x != u {
        ReachesOn(g, x, u, v);
      }
    }
  }

  lemma ExtendsOn<N(!new)>(st: State<N>, cur: State<N>)
    requires Extends(st, cur)
    ensures forall x :: x in st.visited ==> x in cur.visited && cur.On(x) == st.On(x) && cur.Idx(x) == st.Idx(x)
    ensures forall x :: st.On(x) ==> x in st.visited
  {
  }

  lemma ExtendsTwice<N(!new)>(st: State<N>, cur: State<N>, nxt: State<N>)
    requires Extends(st, cur) && Extends(cur, nxt)
    ensures Extends(st, nxt)
  {
    assert nxt.stack[..|st.stack|] == nxt.stack[..|cur.stack|][..|st.stack|];
    ExtendsOn(st, cur);
    ExtendsOn(cur, nxt);
  }

  /** The least of two bounds serves both the edges before and those found by visiting v. */
  lemma LowTogether<N(!new), E(!new)>(g: Graph<N, E>, st: State<N>, cur: State<N>, nxt: State<N>, u: N, seen: set<N>, v: N, n: nat, m: nat, k: nat)
    requires Extends(st, cur) && Extends(cur, nxt) && u in cur.visited && LowEnough(g, st, cur, u, seen, n)
    requires LowEnough(g, cur, nxt, v, Successors(g, v), m) && v !in cur.visited && k <= n && k <= m
    ensures LowEnough(g, st, nxt, u, seen + {v}, k)
  {
    ExtendsOn(st, cur);
    ExtendsOn(cur, nxt);
    hide Extends, State.On, State.Idx, Successors;
    forall x, y | nxt.On(x) && x !in st.visited && st.On(y) && y in Successors(g, x) && (x == u ==> y in seen + {v}) ensures k <= st.Idx(y) {
      if x in cur.visited {
        assert y != v;
      }
    }
  }

  lemma LowReachedOn<N(!new), E(!new)>(g: Graph<N, E>, cur: State<N>, nxt: State<N>, u: N, v: N, n: nat, m: nat)
    requires Extends(cur, nxt) && u in cur.visited && LowReached(g, cur, u, n) && LowReached(g, nxt, v, m) && Reaches(g, u, v)
    requires v in nxt.visited && nxt.Idx(v) >= nxt.Idx(u)
    ensures LowReached(g, nxt, u, if n < m then n else m)
  {
    ExtendsOn(cur, nxt);
    hide Extends, State.On, State.Idx, Reaches;
    if n < m && n < nxt.Idx(u) {
      var y :| cur.On(y) && cur.Idx(y) == n && Reaches(g, u, y);
      assert nxt.On(y) && nxt.Idx(y) == n;
    } else if m <= n && m < nxt.Idx(u) {
      var y :| nxt.On(y) && nxt.Idx(y) == m && Reaches(g, v, y);
      ReachesOn(g, u, v, y);
    }
  }

  lemma LowerNow<N(!new), E(!new)>(g: Graph<N, E>, st: State<N>, cur: State<N>, nxt: State<N>, open: set<N>, u: N, seen: set<N>, n: nat)
    requires Following(g, st, cur, open, u, seen) && Extends(cur, nxt) && Searching(g, nxt, open + {u}) && u in nxt.visited
    requires forall v :: v in seen ==> v in nxt.visited
    ensures |st.stack| < |nxt.stack| && nxt.stack[|st.stack|] == u && nxt.On(u) && nxt.Idx(u) == st.index && Extends(st, nxt)
  {
    hide *;
    FollowingParts(g, st, cur, open, u, seen);
    ExtendsTwice(st, cur, nxt);
    ExtendsOn(cur, nxt);
    StackKept(cur, nxt, |st.stack|);
  }

  lemma StackKept<N(!new)>(st: State<N>, st': State<N>, i: nat)
    requires Extends(st, st') && i < |st.stack|
    ensures i < |st'.stack| && st'.stack[i] == st.stack[i]
  {
    assert st'.stack[..|st.stack|][i] == st'.stack[i];
  }

  lemma LoweredExtends<N(!new)>(st: State<N>, st': State<N>, u: N, n: nat)
    requires Extends(st, st') && u in st'.visited && u !in st.visited
    ensures Extends(st, Lowered(st', u, n))
  {
  }

  lemma AlikeLow<N(!new), E(!new)>(g: Graph<N, E>, st: State<N>, cur: State<N>, cur': State<N>, u: N, seen: set<N>, n: nat)
    requires Alike(cur, cur') && LowReached(g, cur, u, n) && LowEnough(g, st, cur, u, seen, n)
    ensures LowReached(g, cur', u, n) && LowEnough(g, st, cur', u, seen, n)
  {
    hide State.On, State.Idx, State.Popped, Reaches;
  }

  lemma FollowingMade<N(!new), E(!new)>(g: Graph<N, E>, st: State<N>, cur: State<N>, open: set<N>, u: N, seen: set<N>, n: nat)
    requires Searching(g, cur, open + {u}) && Extends(st, cur) && u !in st.visited && cur.On(u) && cur.Idx(u) == st.index
    requires |st.stack| < |cur.stack| && cur.stack[|st.stack|] == u && seen <= cur.visited.Keys
    requires LowReached(g, cur, u, n) && LowEnough(g, st, cur, u, seen, n)
    ensures u in cur.visited && Following(g, st, Lowered(cur, u, n), open, u, seen)
  {
    assert u in cur.visited;
    var cur' := Lowered(cur, u, n);
    hide Searching, Extends, LowReached, LowEnough;
    LoweredAlike(cur, u, n);
    AlikeSearching(g, cur, cur', open + {u});
    LoweredExtends(st, cur, u, n);
    AlikeLow(g, st, cur, cur', u, seen, n);
  }

  /** Back from a visit to v. */
  lemma FromChild<N(!new), E(!new)>(g: Graph<N, E>, st: State<N>, cur: State<N>, nxt: State<N>, open: set<N>, u: N, seen: set<N>, v: N,
                                    n: nat, m: nat)
    requires Following(g, st, cur, open, u, seen) && v in Successors(g, u) && v !in cur.visited
    requires Searching(g, nxt, open + {u}) && Visited(g, cur, nxt, v)
    requires u in cur.visited && n == cur.visited[u].lowlink && v in nxt.visited && m == nxt.visited[v].lowlink
    ensures u in nxt.visited && nxt.visited[u] == cur.visited[u]
    ensures Following(g, st, Lowered(nxt, u, if n < m then n else m), open, u, seen + {v})
  {
    hide *;
    FollowingParts(g, st, cur, open, u, seen);
    VisitedParts(g, cur, nxt, v);
    ExtendsEntry(cur, nxt, u);
    ExtendsOn(cur, nxt);
    ReachesNext(g, u, v);
    LowTogether(g, st, cur, nxt, u, seen, v, n, m, if n < m then n else m);
    NumberLater(g, st, cur, nxt, open, u, seen, v);
    LowReachedOn(g, cur, nxt, u, v, n, m);
    LowerNow(g, st, cur, nxt, open, u, seen, n);
    FollowingMade(g, st, nxt, open, u, seen + {v}, if n < m then n else m);
  }

  lemma ExtendsEntry<N(!new)>(cur: State<N>, nxt: State<N>, u: N)
    requires Extends(cur, nxt) && u in cur.visited
    ensures u in nxt.visited && nxt.visited[u] == cur.visited[u] && cur.visited.Keys <= nxt.visited.Keys
  {
  }

  lemma VisitedParts<N(!new), E(!new)>(g: Graph<N, E>, cur: State<N>, nxt: State<N>, v: N)
    requires Visited(g, cur, nxt, v)
    ensures Extends(cur, nxt) && v in nxt.visited && LowReached(g, nxt, v, nxt.visited[v].lowlink)
    ensures LowEnough(g, cur, nxt, v, Successors(g, v), nxt.visited[v].lowlink)
  {
    hide Extends, LowReached, LowEnough;
  }

  lemma NumberLater<N(!new), E(!new)>(g: Graph<N, E>, st: State<N>, cur: State<N>, nxt: State<N>, open: set<N>, u: N, seen: set<N>, v: N)
    requires Following(g, st, cur, open, u, seen) && Extends(cur, nxt) && v in nxt.visited && v !in cur.visited
    ensures nxt.Idx(v) >= nxt.Idx(u)
  {
    hide LowReached, LowEnough, Coloured, Stacked, Found;
  }

  /** An edge back to a node on the stack, or across to a finished one. */
  lemma BackEdge<N(!new), E(!new)>(g: Graph<N, E>, st: State<N>, cur: State<N>, open: set<N>, u: N, seen: set<N>, v: N, n: nat, k: nat)
    requires Following(g, st, cur, open, u, seen) && v in Successors(g, u) && v in cur.visited
    requires u in cur.visited && n == cur.visited[u].lowlink
    requires k == (if cur.On(v) && cur.Idx(v) < n then cur.Idx(v) else n)
    ensures Following(g, st, Lowered(cur, u, k), open, u, seen + {v})
  {
    hide *;
    FollowingParts(g, st, cur, open, u, seen);
    ReachesNext(g, u, v);
    BackLow(g, st, cur, u, seen, v, n, k);
    FollowingMade(g, st, cur, open, u, seen + {v}, k);
  }

  lemma BackLow<N(!new), E(!new)>(g: Graph<N, E>, st: State<N>, cur: State<N>, u: N, seen: set<N>, v: N, n: nat, k: nat)
    requires Extends(st, cur) && LowReached(g, cur, u, n) && LowEnough(g, st, cur, u, seen, n) && Reaches(g, u, v) && v in cur.visited
    requires k == (if cur.On(v) && cur.Idx(v) < n then cur.Idx(v) else n)
    ensures LowReached(g, cur, u, k) && LowEnough(g, st, cur, u, seen + {v}, k)
  {
    ExtendsOn(st, cur);
    hide Extends, State.On, State.Idx, Reaches, Successors;
  }

  // ---------- leaving a node ----------

  /** All successors followed and an older node reached: u stays on the stack, no longer open. */
  lemma Stay<N(!new), E(!new)>(g: Graph<N, E>, st: State<N>, cur: State<N>, open: set<N>, u: N)
    requires Following(g, st, cur, open, u, Successors(g, u)) && u in cur.visited && cur.visited[u].lowlink < cur.visited[u].index
    requires u !in open && forall x :: x in open ==> st.On(x)
    ensures Searching(g, cur, open) && Visited(g, st, cur, u)
  {
    hide *;
    FollowingParts(g, st, cur, open, u, Successors(g, u));
    SearchingParts(g, cur, open + {u});
    StayColoured(g, st, cur, open, u);
    IdxOf(cur, u);
    StayStacked(g, cur, open, u, cur.visited[u].lowlink);
    SearchingMade(g, cur, open);
    VisitedMade(g, st, cur, u, cur.visited[u].lowlink);
  }

  lemma IdxOf<N>(st: State<N>, u: N)
    requires u in st.visited
    ensures st.Idx(u) == st.visited[u].index
  {
  }

  lemma SearchingMade<N(!new), E(!new)>(g: Graph<N, E>, st: State<N>, open: set<N>)
    requires g.directed && g.Valid() && Numbered(g, st) && Coloured(g, st, open) && Stacked(g, st, open) && Found(g, st)
    ensures Searching(g, st, open)
  {
    hide Numbered, Coloured, Stacked, Found;
  }

  lemma VisitedMade<N(!new), E(!new)>(g: Graph<N, E>, cur: State<N>, nxt: State<N>, v: N, n: nat)
    requires Extends(cur, nxt) && v in nxt.visited && n == nxt.visited[v].lowlink && LowReached(g, nxt, v, n)
    requires LowEnough(g, cur, nxt, v, Successors(g, v), n)
    ensures Visited(g, cur, nxt, v)
  {
    hide Extends, LowReached, LowEnough;
  }

  lemma StayColoured<N(!new), E(!new)>(g: Graph<N, E>, st: State<N>, cur: State<N>, open: set<N>, u: N)
    requires Coloured(g, cur, open + {u}) && Successors(g, u) <= cur.visited.Keys
    ensures Coloured(g, cur, open)
  {
    hide State.On, Successors;
  }

  lemma StayStacked<N(!new), E(!new)>(g: Graph<N, E>, cur: State<N>, open: set<N>, u: N, n: nat)
    requires Stacked(g, cur, open + {u}) && LowReached(g, cur, u, n) && n < cur.Idx(u)
    ensures Stacked(g, cur, open)
  {
    hide State.On, State.Idx, Reaches;
    var z :| cur.On(z) && cur.Idx(z) == n && Reaches(g, u, z);
    var a :| Anchors(g, cur, open + {u}, a, z);
    ReachesOn(g, u, z, a);
    forall y | cur.On(y) ensures exists x :: Anchors(g, cur, open, x, y) {
      var x :| Anchors(g, cur, open + {u}, x, y);
      if x == u {
        ReachesOn(g, y, u, a);
        assert Anchors(g, cur, open, a, y);
      } else {
        assert Anchors(g, cur, open, x, y);
      }
    }
  }

  /** Popping: c lists what has been taken off the stack of cur. */
  ghost predicate Popping<N(!new)>(cur: State<N>, now: State<N>, c: seq<N>) {
    && |now.stack| + |c| == |cur.stack| && now.stack == cur.stack[..|now.stack|]
    && (forall i :: 0 <= i < |c| ==> c[i] == cur.stack[|cur.stack| - 1 - i])
    && now.index == cur.index && now.results == cur.results && now.visited.Keys == cur.visited.Keys
    && (forall x :: x in cur.visited ==> now.visited[x] == if x in c then cur.visited[x].(onStack := false) else cur.visited[x])
  }

  lemma PoppingStep<N(!new), E(!new)>(g: Graph<N, E>, cur: State<N>, now: State<N>, c: seq<N>, v: N)
    requires Numbered(g, cur) && Popping(cur, now, c) && |now.stack| > 0 && v == now.stack[|now.stack| - 1]
    ensures v in now.visited
    ensures Popping(cur, now.(stack := now.stack[..|now.stack| - 1], visited := now.visited[v := now.visited[v].(onStack := false)]), c + [v])
  {
    assert v == cur.stack[|now.stack| - 1] && v in cur.stack && cur.On(v);
    assert forall x :: x in c + [v] <==> x in c || x == v;
  }

  /** What has been popped down to u. */
  lemma PoppingEnds<N(!new), E(!new)>(g: Graph<N, E>, st: State<N>, cur: State<N>, now: State<N>, c: seq<N>)
    requires Numbered(g, cur) && Numbered(g, st) && Popping(cur, now, c) && Extends(st, cur) && |now.stack| == |st.stack| < |cur.stack|
    ensures now.stack == st.stack && NoDup(c) && c != []
    ensures forall x :: x in c <==> cur.On(x) && x !in st.visited
    ensures forall x :: now.On(x) <==> st.On(x)
    ensures forall x :: now.Popped(x) <==> cur.Popped(x) || x in c
    ensures forall x :: now.Idx(x) == cur.Idx(x)
    ensures forall x :: st.On(x) ==> cur.On(x)
  {
    ExtendsOn(st, cur);
    assert forall x :: st.On(x) ==> cur.On(x);
    assert forall x :: cur.On(x) ==> x in cur.visited;
    assert forall x :: x in cur.stack <==> cur.On(x);
    assert forall x :: x in st.stack <==> st.On(x);
    OnSplit(g, st, cur, now, c);
    assert forall x :: now.Idx(x) == cur.Idx(x);
    forall x ensures now.On(x) <==> st.On(x) {
      assert now.On(x) <==> cur.On(x) && x !in c;
    }
  }

  /** The stack of st holds what st had visited; above it lies what came later. */
  lemma StackPlace<N(!new), E(!new)>(g: Graph<N, E>, st: State<N>, cur: State<N>, j: nat)
    requires Numbered(g, cur) && Numbered(g, st) && Extends(st, cur) && j < |cur.stack|
    ensures cur.On(cur.stack[j]) && (j < |st.stack| <==> cur.stack[j] in st.visited)
  {
    ExtendsOn(st, cur);
    hide State.On, State.Idx;
    var k := |st.stack|;
    assert cur.stack[j] in cur.stack;
    forall h | 0 <= h < k ensures cur.stack[h] == st.stack[h] && st.stack[h] in st.stack {
      assert cur.stack[..k][h] == cur.stack[h];
    }
    if j >= k {
      forall h | 0 <= h < k ensures st.stack[h] != cur.stack[j] {
        assert cur.Idx(cur.stack[h]) < cur.Idx(cur.stack[j]);
      }
    }
  }

  lemma OnSplit<N(!new), E(!new)>(g: Graph<N, E>, st: State<N>, cur: State<N>, now: State<N>, c: seq<N>)
    requires Numbered(g, cur) && Numbered(g, st) && Popping(cur, now, c) && Extends(st, cur) && |now.stack| == |st.stack| < |cur.stack|
    ensures NoDup(c) && c != [] && now.stack == st.stack
    ensures forall x :: x in c <==> cur.On(x) && x !in st.visited
  {
    hide State.On, State.Idx;
    var k := |st.stack|;
    forall x | x in c ensures cur.On(x) && x !in st.visited {
      var i :| 0 <= i < |c| && c[i] == x;
      StackPlace(g, st, cur, |cur.stack| - 1 - i);
    }
    forall x | cur.On(x) && x !in st.visited ensures x in c {
      assert x in cur.stack;
      var j :| 0 <= j < |cur.stack| && cur.stack[j] == x;
      StackPlace(g, st, cur, j);
      assert c[|cur.stack| - 1 - j] == x;
    }
    NoneTwice(g, cur, now, c);
  }

  lemma NoneTwice<N(!new), E(!new)>(g: Graph<N, E>, cur: State<N>, now: State<N>, c: seq<N>)
    requires Numbered(g, cur) && Popping(cur, now, c)
    ensures NoDup(c)
  {
    hide State.On, State.Idx;
    forall i, j | 0 <= i < j < |c| ensures c[i] != c[j] {
      assert cur.Idx(cur.stack[|cur.stack| - 1 - j]) < cur.Idx(cur.stack[|cur.stack| - 1 - i]);
    }
  }

  // ---------- a new component ----------

  /** now is cur without the component c, which has been popped off down to the stack of st. */
  ghost predicate Leaves<N(!new)>(st: State<N>, cur: State<N>, now: State<N>, c: seq<N>) {
    && now.stack == st.stack && now.index == cur.index && now.results == cur.results && now.visited.Keys == cur.visited.Keys
    && NoDup(c) && c != []
    && (forall x :: x in c <==> cur.On(x) && x !in st.visited)
    && (forall x :: now.On(x) <==> st.On(x))
    && (forall x :: now.Popped(x) <==> cur.Popped(x) || x in c)
    && (forall x :: now.Idx(x) == cur.Idx(x))
    && (forall x :: st.On(x) ==> cur.On(x))
    && (forall x :: x in now.visited <==> now.On(x) || now.Popped(x))
    && (forall x :: x in cur.visited <==> cur.On(x) || cur.Popped(x))
    && (forall x :: st.On(x) ==> !now.Popped(x))
    && (forall x :: x in st.visited ==> x in cur.visited && cur.Idx(x) == st.Idx(x) && cur.On(x) == st.On(x))
  }

  lemma OnOrPopped<N(!new)>(st: State<N>)
    ensures forall x :: x in st.visited <==> st.On(x) || st.Popped(x)
    ensures forall x :: st.On(x) ==> !st.Popped(x)
  {
  }

  lemma PoppingSame<N(!new)>(cur: State<N>, now: State<N>, c: seq<N>)
    requires Popping(cur, now, c)
    ensures now.index == cur.index && now.results == cur.results && now.visited.Keys == cur.visited.Keys
  {
  }

  lemma LeavesNow<N(!new), E(!new)>(g: Graph<N, E>, st: State<N>, cur: State<N>, now: State<N>, c: seq<N>)
    requires Numbered(g, cur) && Numbered(g, st) && Popping(cur, now, c) && Extends(st, cur) && |now.stack| == |st.stack| < |cur.stack|
    ensures Leaves(st, cur, now, c)
  {
    hide *;
    PoppingEnds(g, st, cur, now, c);
    PoppingSame(cur, now, c);
    ExtendsOn(st, cur);
    LeavesMade(st, cur, now, c);
  }

  lemma LeavesMade<N(!new)>(st: State<N>, cur: State<N>, now: State<N>, c: seq<N>)
    requires now.stack == st.stack && now.index == cur.index && now.results == cur.results && now.visited.Keys == cur.visited.Keys
    requires NoDup(c) && c != []
    requires forall x :: x in c <==> cur.On(x) && x !in st.visited
    requires forall x :: now.On(x) <==> st.On(x)
    requires forall x :: now.Popped(x) <==> cur.Popped(x) || x in c
    requires forall x :: now.Idx(x) == cur.Idx(x)
    requires forall x :: st.On(x) ==> cur.On(x)
    requires forall x :: x in st.visited ==> x in cur.visited && cur.Idx(x) == st.Idx(x) && cur.On(x) == st.On(x)
    ensures Leaves(st, cur, now, c)
  {
    OnOrPopped(st);
    OnOrPopped(cur);
    OnOrPopped(now);
    hide State.On, State.Popped, State.Idx;
  }

  lemma LeftNumbered<N(!new), E(!new)>(g: Graph<N, E>, st: State<N>, cur: State<N>, now: State<N>, c: seq<N>)
    requires Leaves(st, cur, now, c) && Numbered(g, cur) && Numbered(g, st)
    ensures Numbered(g, now)
  {
    assert forall x :: st.On(x) ==> x in st.visited;
    hide State.On, State.Idx, State.Popped;
    forall i | 0 <= i < |st.stack| ensures now.Idx(st.stack[i]) == st.Idx(st.stack[i]) {
      assert st.stack[i] in st.stack;
    }
  }

  lemma LeftColoured<N(!new), E(!new)>(g: Graph<N, E>, st: State<N>, cur: State<N>, now: State<N>, c: seq<N>, open: set<N>, u: N)
    requires Leaves(st, cur, now, c) && Coloured(g, cur, open + {u}) && Successors(g, u) <= cur.visited.Keys && forall x :: x in open ==> st.On(x)
    ensures Coloured(g, now, open)
  {
    hide State.On, State.Idx, State.Popped, Successors;
  }

  lemma LeftStacked<N(!new), E(!new)>(g: Graph<N, E>, st: State<N>, cur: State<N>, now: State<N>, c: seq<N>, open: set<N>, u: N)
    requires Leaves(st, cur, now, c) && Stacked(g, cur, open + {u}) && Numbered(g, st) && u !in st.visited && cur.Idx(u) == st.index
    ensures Stacked(g, now, open)
  {
    assert forall x :: st.On(x) ==> x in st.visited;
    hide State.On, State.Idx, State.Popped, Reaches;
    forall y | now.On(y) ensures exists x :: Anchors(g, now, open, x, y) {
      var x :| Anchors(g, cur, open + {u}, x, y);
      assert st.Idx(y) < st.index;
      assert Anchors(g, now, open, x, y);
    }
  }

  /** No edge leaves the finished components. */
  lemma LeftClosed<N(!new), E(!new)>(g: Graph<N, E>, st: State<N>, cur: State<N>, now: State<N>, c: seq<N>, open: set<N>, u: N)
    requires Leaves(st, cur, now, c) && Found(g, cur) && Coloured(g, cur, open + {u}) && Numbered(g, st)
    requires Successors(g, u) <= cur.visited.Keys && forall x :: x in open ==> st.On(x)
    requires LowEnough(g, st, cur, u, Successors(g, u), st.index)
    ensures forall x, y :: now.Popped(x) && y in Successors(g, x) ==> now.Popped(y)
  {
    assert forall x :: st.On(x) ==> x in st.visited;
    hide State.On, State.Idx, State.Popped, Successors, IsComponent;
    forall x, y | now.Popped(x) && y in Successors(g, x) ensures now.Popped(y) {
      if x in c {
        assert y in cur.visited;
        assert !st.On(y);
      }
    }
  }

  /** The nodes of c reach each other, all by way of u. */
  lemma LeftMutual<N(!new), E(!new)>(g: Graph<N, E>, st: State<N>, cur: State<N>, now: State<N>, c: seq<N>, open: set<N>, u: N, x: N)
    requires Leaves(st, cur, now, c) && Stacked(g, cur, open + {u}) && cur.On(u) && cur.Idx(u) == st.index && Extends(st, cur)
    requires x in c && (forall z :: z in open ==> Reaches(g, z, u))
    ensures Mutual(g, u, x)
  {
    assert cur.Idx(u) <= cur.Idx(x);
    hide State.On, State.Idx, State.Popped, Reaches, Extends;
    var a :| Anchors(g, cur, open + {u}, a, x);
    if a != u {
      ReachesOn(g, x, a, u);
    }
  }

  ghost function PoppedSet<N(!new)>(st: State<N>): set<N> {
    set x | x in st.visited && st.Popped(x)
  }

  /** Nothing outside c is mutually reachable with a node of c. */
  lemma LeftMaximal<N(!new), E(!new)>(g: Graph<N, E>, st: State<N>, cur: State<N>, now: State<N>, c: seq<N>, x: N, y: N)
    requires g.directed && Leaves(st, cur, now, c) && Found(g, cur) && x in c && Mutual(g, x, y)
    requires forall z, w :: now.Popped(z) && w in Successors(g, z) ==> now.Popped(w)
    ensures y in c
  {
    assert forall z :: z in PoppedSet(now) <==> now.Popped(z);
    assert forall z :: z in PoppedSet(cur) <==> cur.Popped(z);
    assert cur.On(x) ==> !cur.Popped(x);
    hide State.On, State.Idx, State.Popped, Successors, IsComponent, Reaches, PoppedSet;
    ClosedReach(g, PoppedSet(now), x, y);
    if cur.Popped(y) {
      ClosedReach(g, PoppedSet(cur), y, x);
    }
  }

  lemma LeftComponent<N(!new), E(!new)>(g: Graph<N, E>, st: State<N>, cur: State<N>, now: State<N>, c: seq<N>, open: set<N>, u: N)
    requires g.directed && Leaves(st, cur, now, c) && Found(g, cur) && Stacked(g, cur, open + {u}) && cur.On(u) && cur.Idx(u) == st.index
    requires Extends(st, cur) && cur.visited.Keys <= g.nodes && forall z :: z in open ==> Reaches(g, z, u)
    requires forall z, w :: now.Popped(z) && w in Successors(g, z) ==> now.Popped(w)
    ensures IsComponent(g, c)
  {
    forall x | x in c ensures x in g.nodes && Mutual(g, u, x) {
      LeftMutual(g, st, cur, now, c, open, u, x);
    }
    forall x, y | x in c && y in c ensures Mutual(g, x, y) {
      hide *;
      MutualTogether(g, u, x, y);
    }
    forall x, y | x in c && Mutual(g, x, y) ensures y in c {
      LeftMaximal(g, st, cur, now, c, x, y);
    }
    LeftDistinct(st, cur, now, c);
    hide Leaves, Found, Stacked, Extends, Mutual;
  }

  lemma LeftDistinct<N(!new)>(st: State<N>, cur: State<N>, now: State<N>, c: seq<N>)
    requires Leaves(st, cur, now, c)
    ensures NoDup(c) && c != []
  {
  }

  lemma MutualTogether<N(!new), E(!new)>(g: Graph<N, E>, u: N, x: N, y: N)
    requires Mutual(g, u, x) && Mutual(g, u, y)
    ensures Mutual(g, x, y)
  {
    hide Reaches;
    ReachesOn(g, x, u, y);
    ReachesOn(g, y, u, x);
  }

  lemma LeftFound<N(!new), E(!new)>(g: Graph<N, E>, st: State<N>, cur: State<N>, now: State<N>, c: seq<N>)
    requires Leaves(st, cur, now, c) && Found(g, cur) && IsComponent(g, c)
    requires forall z, w :: now.Popped(z) && w in Successors(g, z) ==> now.Popped(w)
    ensures Found(g, now.(results := now.results + [c]))
  {
    var now' := now.(results := now.results + [c]);
    assert forall x :: now'.Popped(x) <==> now.Popped(x);
    assert forall x :: cur.On(x) ==> !cur.Popped(x);
    hide State.On, State.Idx, State.Popped, Successors, IsComponent, Found;
    FoundWith(g, cur, now', c);
  }

  /** One more component, of nodes not popped before. */
  lemma FoundWith<N(!new), E(!new)>(g: Graph<N, E>, cur: State<N>, now: State<N>, c: seq<N>)
    requires Found(g, cur) && IsComponent(g, c) && now.results == cur.results + [c]
    requires (forall x :: now.Popped(x) <==> cur.Popped(x) || x in c) && forall x :: x in c ==> !cur.Popped(x)
    requires forall z, w :: now.Popped(z) && w in Successors(g, z) ==> now.Popped(w)
    ensures Found(g, now)
  {
    hide State.Popped, Successors, IsComponent;
    var r := now.results;
    forall x ensures now.Popped(x) <==> exists i :: 0 <= i < |r| && x in r[i] {
      if cur.Popped(x) {
        var i :| 0 <= i < |cur.results| && x in cur.results[i];
        assert x in r[i];
      }
      if x in c {
        assert x in r[|cur.results|];
      }
      if i :| 0 <= i < |r| && x in r[i] {
        assert i < |cur.results| ==> x in cur.results[i];
      }
    }
    forall i | 0 <= i < |cur.results| ensures forall x :: x in r[i] ==> x !in c {
      forall x | x in r[i] ensures x !in c {
        assert x in cur.results[i];
      }
    }
  }

  /** The component headed by u has been popped. */
  lemma Leave<N(!new), E(!new)>(g: Graph<N, E>, st: State<N>, cur: State<N>, now: State<N>, c: seq<N>, open: set<N>, u: N, st': State<N>)
    requires Searching(g, st, open) && Following(g, st, cur, open, u, Successors(g, u)) && Popping(cur, now, c) && |now.stack| == |st.stack|
    requires u in cur.visited && cur.visited[u].lowlink == cur.visited[u].index && u !in open
    requires forall x :: x in open ==> Reaches(g, x, u)
    requires st' == now.(results := now.results + [c])
    ensures Searching(g, st', open) && Visited(g, st, st', u)
  {
    hide *;
    FollowingParts(g, st, cur, open, u, Successors(g, u));
    SearchingParts(g, st, open);
    SearchingParts(g, cur, open + {u});
    IdxOf(cur, u);
    LeavesNow(g, st, cur, now, c);
    OpenOn(g, st, open);
    VisitedWithin(g, cur);
    LeftClosed(g, st, cur, now, c, open, u);
    LeftComponent(g, st, cur, now, c, open, u);
    LeftFound(g, st, cur, now, c);
    LeftNumbered(g, st, cur, now, c);
    LeftColoured(g, st, cur, now, c, open, u);
    LeftStacked(g, st, cur, now, c, open, u);
    ResultsApart(g, now, st', open);
    SearchingMade(g, st', open);
    LeftVisited(g, st, cur, now, c, st', u);
  }

  lemma OpenOn<N(!new), E(!new)>(g: Graph<N, E>, st: State<N>, open: set<N>)
    requires Coloured(g, st, open)
    ensures forall x :: x in open ==> st.On(x) && x in st.visited
  {
  }

  lemma VisitedWithin<N(!new), E(!new)>(g: Graph<N, E>, st: State<N>)
    requires Numbered(g, st)
    ensures st.visited.Keys <= g.nodes
  {
  }

  lemma ResultsApart<N(!new), E(!new)>(g: Graph<N, E>, now: State<N>, st': State<N>, open: set<N>)
    requires st' == now.(results := st'.results) && Numbered(g, now) && Coloured(g, now, open) && Stacked(g, now, open)
    ensures Numbered(g, st') && Coloured(g, st', open) && Stacked(g, st', open)
  {
    SameMarks(now, st');
    StackedOther(g, now, st', open);
    hide State.On, State.Idx, Reaches, Successors, Stacked;
  }

  lemma SameMarks<N(!new)>(now: State<N>, st': State<N>)
    requires st' == now.(results := st'.results)
    ensures forall x :: st'.On(x) == now.On(x) && st'.Idx(x) == now.Idx(x)
  {
  }

  lemma StackedOther<N(!new), E(!new)>(g: Graph<N, E>, now: State<N>, st': State<N>, open: set<N>)
    requires Stacked(g, now, open) && forall x :: st'.On(x) == now.On(x) && st'.Idx(x) == now.Idx(x)
    ensures Stacked(g, st', open)
  {
    hide State.On, State.Idx, Reaches;
    forall y | st'.On(y) ensures exists x :: Anchors(g, st', open, x, y) {
      var x :| Anchors(g, now, open, x, y);
      assert Anchors(g, st', open, x, y);
    }
  }

  lemma LeftExtends<N(!new)>(st: State<N>, cur: State<N>, now: State<N>, c: seq<N>, st': State<N>)
    requires Popping(cur, now, c) && Extends(st, cur) && st' == now.(results := st'.results) && now.stack == st.stack
    requires forall x :: x in st.visited ==> x !in c
    ensures Extends(st, st')
  {
    assert st.stack[..|st.stack|] == st.stack;
  }

  lemma LeftLow<N(!new), E(!new)>(g: Graph<N, E>, st: State<N>, cur: State<N>, now: State<N>, c: seq<N>, st': State<N>, u: N)
    requires Leaves(st, cur, now, c) && st' == now.(results := st'.results) && u in now.visited
    requires forall x :: st.On(x) ==> x in st.visited
    ensures LowReached(g, st', u, now.visited[u].index) && LowEnough(g, st, st', u, Successors(g, u), now.visited[u].index)
  {
    assert forall x :: st'.On(x) == now.On(x) && st'.Idx(x) == now.Idx(x);
    assert now.Idx(u) == now.visited[u].index;
    hide State.On, State.Idx, Reaches, Successors, State.Popped;
  }

  lemma LeftEntry<N(!new)>(st: State<N>, cur: State<N>, now: State<N>, c: seq<N>, u: N)
    requires Leaves(st, cur, now, c) && Popping(cur, now, c) && u in cur.visited
    ensures u in now.visited && now.visited[u].lowlink == cur.visited[u].lowlink && now.visited[u].index == cur.visited[u].index
    ensures now.stack == st.stack && forall x :: x in st.visited ==> x !in c
  {
    hide State.On, State.Idx, State.Popped;
  }

  lemma LeftVisited<N(!new), E(!new)>(g: Graph<N, E>, st: State<N>, cur: State<N>, now: State<N>, c: seq<N>, st': State<N>, u: N)
    requires Leaves(st, cur, now, c) && Popping(cur, now, c) && Extends(st, cur) && u in cur.visited && st' == now.(results := st'.results)
    requires cur.visited[u].lowlink == cur.visited[u].index
    ensures Visited(g, st, st', u)
  {
    hide *;
    LeftEntry(st, cur, now, c, u);
    LeftExtends(st, cur, now, c, st');
    ExtendsOn(st, cur);
    LeftLow(g, st, cur, now, c, st', u);
    VisitedMade(g, st, st', u, now.visited[u].index);
  }

  // ---------- the algorithm ----------

  /** Pops the stack down to and including u. */
  method PopComponent<N(!new, ==), E(!new)>(ghost g: Graph<N, E>, ghost st: State<N>, cur: State<N>, ghost open: set<N>, u: N)
    returns (now: State<N>, c: seq<N>)
    requires Following(g, st, cur, open, u, Successors(g, u))
    ensures Popping(cur, now, c) && |now.stack| == |st.stack|
  {
    hide *;
    FollowingParts(g, st, cur, open, u, Successors(g, u));
    SearchingParts(g, cur, open + {u});
    now, c := cur, [];
    PoppingStarts(cur);
    var more := true;
    while more
      invariant Popping(cur, now, c) && |now.stack| <= |cur.stack|
      invariant if more then |now.stack| > |st.stack| else |now.stack| == |st.stack|
      decreases |now.stack|, more
    {
      var v := now.stack[|now.stack| - 1];
      PoppingStep(g, cur, now, c, v);
      PoppingTop(g, cur, now, c, |st.stack|);
      now := now.(stack := now.stack[..|now.stack| - 1], visited := now.visited[v := now.visited[v].(onStack := false)]);
      c := c + [v];
      more := u != v;
    }
  }

  lemma PoppingStarts<N(!new)>(cur: State<N>)
    ensures Popping(cur, cur, [])
  {
    assert cur.stack[..|cur.stack|] == cur.stack;
  }

  lemma PoppingTop<N(!new), E(!new)>(g: Graph<N, E>, cur: State<N>, now: State<N>, c: seq<N>, k: nat)
    requires Numbered(g, cur) && Popping(cur, now, c) && |cur.stack| >= |now.stack| > k
    ensures now.stack[|now.stack| - 1] == cur.stack[k] <==> |now.stack| - 1 == k
  {
    hide State.On, State.Idx;
    var j := |now.stack| - 1;
    assert now.stack[j] == cur.stack[j];
    assert j > k ==> cur.Idx(cur.stack[k]) < cur.Idx(cur.stack[j]);
  }

  /** Visits u and all that can be reached from it by way of unvisited nodes. */
  method Dfs<N(!new, ==), E(!new, ==)>(g: Graph<N, E>, st: State<N>, ghost open: set<N>, u: N) returns (st': State<N>)
    requires Searching(g, st, open) && u in g.nodes && u !in st.visited && forall x :: x in open ==> Reaches(g, x, u)
    ensures Searching(g, st', open) && Visited(g, st, st', u)
    decreases g.nodes - st.visited.Keys
  {
    hide *;
    PushNow(g, st, open, u);
    SearchingParts(g, st, open);
    OpenOn(g, st, open);
    var cur := Push(st, u);
    var vs := Listing(Successors(g, u));
    UptoEnds(vs, Successors(g, u));
    for i := 0 to |vs|
      invariant Following(g, st, cur, open, u, Upto(vs, i))
    {
      var v := vs[i];
      UptoStep(vs, Successors(g, u), i);
      FollowingParts(g, st, cur, open, u, Upto(vs, i));
      var n := cur.visited[u].lowlink;
      if v !in cur.visited {
        ToChild(g, st, cur, open, u, Upto(vs, i), v);
        Fewer(g, st, cur, open, u, Upto(vs, i));
        var nxt := Dfs(g, cur, open + {u}, v);
        VisitedParts(g, cur, nxt, v);
        var m := nxt.visited[v].lowlink;
        FromChild(g, st, cur, nxt, open, u, Upto(vs, i), v, n, m);
        cur := Lowered(nxt, u, if nxt.visited[u].lowlink < m then nxt.visited[u].lowlink else m);
      } else {
        var k := if cur.On(v) && cur.Idx(v) < n then cur.Idx(v) else n;
        BackEdge(g, st, cur, open, u, Upto(vs, i), v, n, k);
        cur := Lowered(cur, u, k);
      }
    }
    FollowingParts(g, st, cur, open, u, Successors(g, u));
    if cur.visited[u].lowlink == cur.visited[u].index {
      var now, c := PopComponent(g, st, cur, open, u);
      st' := now.(results := now.results + [c]);
      Leave(g, st, cur, now, c, open, u, st');
    } else {
      LowBound(g, cur, u);
      Stay(g, st, cur, open, u);
      st' := cur;
    }
  }

  lemma Fewer<N(!new), E(!new)>(g: Graph<N, E>, st: State<N>, cur: State<N>, open: set<N>, u: N, seen: set<N>)
    requires Following(g, st, cur, open, u, seen)
    ensures g.nodes - cur.visited.Keys < g.nodes - st.visited.Keys
  {
    hide *;
    FollowingParts(g, st, cur, open, u, seen);
    SearchingParts(g, cur, open + {u});
    VisitedWithin(g, cur);
    ExtendsOn(st, cur);
    assert u in g.nodes - st.visited.Keys;
  }

  lemma LowBound<N(!new), E(!new)>(g: Graph<N, E>, cur: State<N>, u: N)
    requires u in cur.visited && LowReached(g, cur, u, cur.visited[u].lowlink)
    ensures cur.visited[u].lowlink <= cur.visited[u].index
  {
    hide Reaches;
  }

  /** The components partition the nodes. */
  ghost predicate Components<N(!new), E(!new)>(g: Graph<N, E>, results: seq<seq<N>>) {
    && (forall i :: 0 <= i < |results| ==> IsComponent(g, results[i]))
    && (forall x :: x in g.nodes <==> exists i :: 0 <= i < |results| && x in results[i])
    && (forall i, j :: 0 <= i < j < |results| ==> forall x :: x in results[i] ==> x !in results[j])
  }

  lemma AllFound<N(!new), E(!new)>(g: Graph<N, E>, st: State<N>)
    requires Searching(g, st, {}) && g.nodes <= st.visited.Keys
    ensures Components(g, st.results)
  {
    SearchingParts(g, st, {});
    NothingOpen(g, st, {});
    hide IsComponent, Stacked, Coloured, Searching;
  }

  lemma NothingOpen<N(!new), E(!new)>(g: Graph<N, E>, st: State<N>, open: set<N>)
    requires Stacked(g, st, open) && open == {}
    ensures forall x :: x in st.visited ==> st.Popped(x)
  {
    hide Reaches;
    assert forall x, y :: !Anchors(g, st, open, x, y);
    forall x | x in st.visited ensures st.Popped(x) {
      assert !st.On(x);
    }
  }

  /** The strongly connected components of a digraph. */
  method Tarjan<N(!new, ==), E(!new, ==)>(g: Graph<N, E>) returns (r: Result<seq<seq<N>>, string>)
    requires g.Valid()
    ensures r.Err? <==> !g.directed
    ensures r.Ok? ==> Components(g, r.value)
  {
    hide *;
    if !g.directed {
      return Err("tarjan can only be applied to a directed graph");
    }
    var st: State<N> := State(0, [], map[], []);
    NothingVisited(g);
    var us := Listing(g.nodes);
    UptoEnds(us, g.nodes);
    for i := 0 to |us|
      invariant Searching(g, st, {}) && Upto(us, i) <= st.visited.Keys
    {
      UptoStep(us, g.nodes, i);
      if us[i] !in st.visited {
        ghost var before := st;
        st := Dfs(g, st, {}, us[i]);
        VisitedParts(g, before, st, us[i]);
        ExtendsOn(before, st);
      }
    }
    AllFound(g, st);
    r := Ok(st.results);
  }

  lemma NothingVisited<N(!new), E(!new)>(g: Graph<N, E>)
    requires g.directed && g.Valid()
    ensures Searching(g, State(0, [], map[], []), {})
  {
    var st: State<N> := State(0, [], map[], []);
    assert forall x :: !st.On(x) && !st.Popped(x);
    assert Numbered(g, st);
    assert Coloured(g, st, {});
    assert Stacked(g, st, {});
    assert Found(g, st);
  }
}
