/** Breaking cycles by reversing the edges that a depth-first search finds pointing back at its
    stack, and undoing it. */
module Acyclics {
  import opened Base
  import opened Digraphs

  /** What the layout keeps on an edge: the id it had in the input, its minimum length, and
      whether it currently runs against its original direction. */
  datatype EdgeAttr = EdgeAttr(e: Option<Id>, minLen: int, reversed: bool)

  type Edges = map<Id, Edge<EdgeAttr>>

  function Flip(d: Edge<EdgeAttr>): Edge<EdgeAttr> {
    Edge(d.v, d.u, d.value.(reversed := !d.value.reversed))
  }

  /** The edge in its original direction. */
  function Upright(d: Edge<EdgeAttr>): Edge<EdgeAttr> {
    if d.value.reversed then Flip(d) else d
  }

  ghost predicate NoSelfLoops(edges: Edges) {
    forall e :: e in edges ==> edges[e].u != edges[e].v
  }

  ghost predicate NoneReversed(edges: Edges) {
    forall e :: e in edges ==> !edges[e].value.reversed
  }

  /** Every edge stands as it was or flipped. */
  ghost predicate SomeFlipped(before: Edges, after: Edges) {
    && after.Keys == before.Keys
    && forall e :: e in before ==> after[e] == before[e] || after[e] == Flip(before[e])
  }

  /** num decreases along every edge, so there is no cycle. */
  ghost predicate Numbered(edges: Edges, num: map<Id, nat>) {
    forall e :: e in edges && edges[e].u in num ==> edges[e].v in num && num[edges[e].v] < num[edges[e].u]
  }

  /** A chain of edges. */
  ghost predicate Chain(edges: Edges, u: Id, es: seq<Id>, v: Id)
    decreases |es|
  {
    if es == [] then u == v
    else es[0] in edges && edges[es[0]].u == u && Chain(edges, edges[es[0]].v, es[1..], v)
  }

  ghost predicate IsAcyclic(edges: Edges) {
    forall u, es :: Chain(edges, u, es, u) ==> es == []
  }

  lemma {:induction false} ChainDescends(edges: Edges, num: map<Id, nat>, u: Id, es: seq<Id>, v: Id)
    requires Numbered(edges, num) && u in num && Chain(edges, u, es, v)
    ensures v in num && num[v] <= num[u] && (es != [] ==> num[v] < num[u])
    decreases |es|
  {
    if es != [] {
      ChainDescends(edges, num, edges[es[0]].v, es[1..], v);
    }
  }

  lemma NumberedIsAcyclic(edges: Edges, num: map<Id, nat>)
    requires Numbered(edges, num) && EndsIn(edges, num.Keys)
    ensures IsAcyclic(edges)
  {
    forall u, es | Chain(edges, u, es, u) ensures es == [] {
      if es != [] {
        ChainDescends(edges, num, u, es, u);
      }
    }
  }

  ghost predicate Leads(edges: Edges, u: Id, v: Id) {
    exists es :: Chain(edges, u, es, v)
  }

  lemma {:induction false} ChainConcat(edges: Edges, a: Id, p: seq<Id>, b: Id, q: seq<Id>, c: Id)
    requires Chain(edges, a, p, b) && Chain(edges, b, q, c)
    ensures Chain(edges, a, p + q, c)
    decreases |p|
  {
    if p == [] {
      assert p + q == q;
    } else {
      ChainConcat(edges, edges[p[0]].v, p[1..], b, q, c);
      assert (p + q)[1..] == p[1..] + q;
    }
  }

  lemma LeadsSelf(edges: Edges, u: Id)
    ensures Leads(edges, u, u)
  {
    assert Chain(edges, u, [], u);
  }

  lemma LeadsOn(edges: Edges, u: Id, v: Id, w: Id)
    requires Leads(edges, u, v) && Leads(edges, v, w)
    ensures Leads(edges, u, w)
  {
    var p :| Chain(edges, u, p, v);
    var q :| Chain(edges, v, q, w);
    ChainConcat(edges, u, p, v, q, w);
  }

  /** In the graph `before`, the head of e leads back to its tail. */
  ghost predicate OnCycle(before: Edges, e: Id) {
    e in before && Leads(before, before[e].v, before[e].u)
  }

  /** Every open node leads to u. */
  ghost predicate Behind(before: Edges, stack: set<Id>, u: Id) {
    forall s :: s in stack ==> Leads(before, s, u)
  }

  lemma BehindStep(before: Edges, stack: set<Id>, u: Id, e: Id)
    requires Behind(before, stack, u) && e in before && before[e].u == u
    ensures Behind(before, stack + {u}, before[e].v)
  {
    assert Chain(before, u, [e], before[e].v) by {
      assert [e][1..] == [];
    }
    LeadsSelf(before, u);
    forall s | s in stack + {u} ensures Leads(before, s, before[e].v) {
      assert s in stack || s == u;
      LeadsOn(before, s, u, before[e].v);
    }
  }

  /** The state of the search: `num` numbers the finished nodes, `stack` are the open ones. */
  ghost predicate Searching(before: Edges, edges: Edges, num: map<Id, nat>, stack: set<Id>, visited: set<Id>) {
    && SomeFlipped(before, edges) && NoSelfLoops(before) && NoneReversed(before)
    && num.Keys !! stack && visited == num.Keys + stack
    && Numbered(edges, num)
    && (forall x :: x in num ==> num[x] < |num|)
    && (forall e :: e in edges && edges[e] != before[e] ==> edges[e].u in visited)
    && (forall e :: e in edges && edges[e] != before[e] ==> OnCycle(before, e))
  }

  /** From one state to a later one: edges out of visited nodes stay, and an open node gains only
      edges to finished nodes. */
  ghost predicate Undisturbed(from: Edges, edges: Edges, done0: set<Id>, done: set<Id>, stack: set<Id>) {
    && edges.Keys == from.Keys && done0 <= done
    && (forall e :: e in from && (from[e].u in done0 || from[e].u in stack) ==> edges[e] == from[e])
    && (forall e :: e in edges && edges[e].u in stack ==> edges[e] == from[e] || edges[e].v in done)
  }

  /** The whole effect of a search: from one search state to another over the same open nodes. */
  ghost predicate Searched(before: Edges, from: Edges, num0: map<Id, nat>, edges: Edges, num: map<Id, nat>,
      stack: set<Id>, visited: set<Id>)
  {
    Searching(before, edges, num, stack, visited) && Undisturbed(from, edges, num0.Keys, num.Keys, stack)
  }

  /** The edges out of u are those in `rest`, untouched so far, and edges to finished nodes. */
  ghost predicate Remaining(before: Edges, from: Edges, edges: Edges, done: set<Id>, u: Id, rest: seq<Id>) {
    && NoDup(rest) && edges.Keys == before.Keys == from.Keys
    && (forall e :: e in rest ==> e in edges && edges[e].u == u && edges[e] == before[e] == from[e])
    && (forall e :: e in edges && edges[e].u == u ==> e in rest || edges[e].v in done)
  }

  /** The state while u is the top of the stack and the edges in `rest` are still to be followed. */
  ghost predicate Following(before: Edges, from: Edges, num0: map<Id, nat>, edges: Edges, num: map<Id, nat>,
      onStack: set<Id>, visited: set<Id>, u: Id, rest: seq<Id>)
  {
    && u !in onStack && u !in num0
    && Searching(before, edges, num, onStack + {u}, visited)
    && Undisturbed(from, edges, num0.Keys, num.Keys + {u}, onStack)
    && Remaining(before, from, edges, num.Keys, u, rest)
  }

  lemma NothingYet(before: Edges, edges: Edges, num: map<Id, nat>, stack: set<Id>, visited: set<Id>)
    requires Searching(before, edges, num, stack, visited)
    ensures Searched(before, edges, num, edges, num, stack, visited)
  {
  }

  lemma Open(before: Edges, edges: Edges, num: map<Id, nat>, onStack: set<Id>, visited: set<Id>, u: Id, es: seq<Id>)
    requires Searching(before, edges, num, onStack, visited) && u !in visited
    requires Lists(es, set e | e in edges && edges[e].u == u)
    ensures Following(before, edges, num, edges, num, onStack, visited + {u}, u, es)
  {
    assert Searching(before, edges, num, onStack + {u}, visited + {u});
  }

  /** The next edge to follow is as it was in the beginning, and no self loop. */
  lemma NextEdge(before: Edges, from: Edges, num0: map<Id, nat>, edges: Edges, num: map<Id, nat>,
      onStack: set<Id>, visited: set<Id>, u: Id, rest: seq<Id>)
    requires Following(before, from, num0, edges, num, onStack, visited, u, rest) && rest != []
    ensures var e := rest[0];
            && e in edges && e in before && edges[e] == before[e] && edges[e].u == u && edges[e].v != u && u in visited
            && !edges[e].value.reversed && edges[e] == from[e]
    ensures Searching(before, edges, num, onStack + {u}, visited)
  {
  }

  lemma Rest(rest: seq<Id>)
    requires NoDup(rest) && rest != []
    ensures NoDup(rest[1..]) && rest[0] !in rest[1..]
    ensures forall x :: x in rest <==> x in rest[1..] || x == rest[0]
  {
    assert forall i :: 0 <= i < |rest[1..]| ==> rest[1..][i] == rest[i + 1];
  }

  /** Flipping keeps the search state. */
  lemma FlipBack(before: Edges, edges: Edges, num: map<Id, nat>, stack: set<Id>, visited: set<Id>, e: Id)
    requires Searching(before, edges, num, stack, visited) && e in edges && edges[e] == before[e]
    requires edges[e].u in stack && edges[e].v in stack && OnCycle(before, e)
    ensures Searching(before, edges[e := Flip(edges[e])], num, stack, visited)
  {
  }

  lemma FlipRemaining(before: Edges, from: Edges, edges: Edges, done: set<Id>, u: Id, rest: seq<Id>)
    requires Remaining(before, from, edges, done, u, rest) && rest != [] && edges[rest[0]].v != u
    ensures Remaining(before, from, edges[rest[0] := Flip(edges[rest[0]])], done, u, rest[1..])
  {
    Rest(rest);
  }

  lemma FlipUndisturbed(from: Edges, edges: Edges, done0: set<Id>, done: set<Id>, stack: set<Id>, e: Id)
    requires Undisturbed(from, edges, done0, done, stack)
    requires e in edges && edges[e] == from[e] && edges[e].u !in stack && edges[e].u !in done0 && edges[e].u in done
    ensures Undisturbed(from, edges[e := Flip(edges[e])], done0, done, stack)
  {
  }

  /** Following an edge back to an open node: it is flipped. */
  lemma FollowBack(before: Edges, from: Edges, num0: map<Id, nat>, edges: Edges, num: map<Id, nat>,
      onStack: set<Id>, visited: set<Id>, u: Id, rest: seq<Id>)
    requires Following(before, from, num0, edges, num, onStack, visited, u, rest) && rest != []
    requires edges[rest[0]].v in onStack + {u} && Behind(before, onStack, u)
    ensures Following(before, from, num0, edges[rest[0] := Flip(edges[rest[0]])], num, onStack, visited, u, rest[1..])
  {
    NextEdge(before, from, num0, edges, num, onStack, visited, u, rest);
    LeadsSelf(before, u);
    assert OnCycle(before, rest[0]);
    hide Searching, Undisturbed, Remaining, OnCycle;
    FlipBack(before, edges, num, onStack + {u}, visited, rest[0]);
    FlipUndisturbed(from, edges, num0.Keys, num.Keys + {u}, onStack, rest[0]);
    FlipRemaining(before, from, edges, num.Keys, u, rest);
  }

  lemma DownRemaining(before: Edges, from: Edges, edges: Edges, done: set<Id>, edges': Edges, done': set<Id>, stack: set<Id>, u: Id, rest: seq<Id>)
    requires Remaining(before, from, edges, done, u, rest) && rest != []
    requires Undisturbed(edges, edges', done, done', stack) && u in stack && edges[rest[0]].v in done'
    ensures Remaining(before, from, edges', done', u, rest[1..])
  {
    Rest(rest);
  }

  lemma DownUndisturbed(a: Edges, b: Edges, c: Edges, d0: set<Id>, d1: set<Id>, d2: set<Id>, stack: set<Id>, u: Id)
    requires Undisturbed(a, b, d0, d1 + {u}, stack) && Undisturbed(b, c, d1, d2, stack + {u}) && u !in d0
    ensures Undisturbed(a, c, d0, d2 + {u}, stack)
  {
  }

  /** Following an edge deeper: the search from its target has run. */
  lemma FollowDown(before: Edges, from: Edges, num0: map<Id, nat>, edges: Edges, num: map<Id, nat>, edges': Edges, num': map<Id, nat>,
      onStack: set<Id>, visited: set<Id>, visited': set<Id>, u: Id, rest: seq<Id>)
    requires Following(before, from, num0, edges, num, onStack, visited, u, rest) && rest != [] && rest[0] in edges
    requires Searched(before, edges, num, edges', num', onStack + {u}, visited') && edges[rest[0]].v in num'
    ensures Following(before, from, num0, edges', num', onStack, visited', u, rest[1..])
  {
    hide Searching, Undisturbed, Remaining;
    DownUndisturbed(from, edges, edges', num0.Keys, num.Keys, num'.Keys, onStack, u);
    DownRemaining(before, from, edges, num.Keys, edges', num'.Keys, onStack + {u}, u, rest);
  }

  /** When every edge has been followed, u is closed. */
  lemma Close(before: Edges, from: Edges, num0: map<Id, nat>, edges: Edges, num: map<Id, nat>,
      onStack: set<Id>, visited: set<Id>, u: Id, rest: seq<Id>)
    requires Following(before, from, num0, edges, num, onStack, visited, u, rest) && rest == []
    ensures Searched(before, from, num0, edges, num[u := |num|], onStack, visited)
  {
    var num' := num[u := |num|];
    assert num'.Keys == num.Keys + {u};
    hide Undisturbed;
    CloseNumbered(before, from, edges, num, onStack, visited, u, rest);
  }

  lemma CloseNumbered(before: Edges, from: Edges, edges: Edges, num: map<Id, nat>, stack: set<Id>, visited: set<Id>, u: Id, rest: seq<Id>)
    requires Searching(before, edges, num, stack + {u}, visited) && u !in stack && rest == []
    requires Remaining(before, from, edges, num.Keys, u, rest)
    ensures Searching(before, edges, num[u := |num|], stack, visited)
  {
    hide SomeFlipped, NoSelfLoops, NoneReversed;
    Renumbered(edges, num, u);
    OneMore(num, stack, visited, u);
    hide Numbered, Remaining;
  }

  lemma OneMore(num: map<Id, nat>, stack: set<Id>, visited: set<Id>, u: Id)
    requires num.Keys !! stack + {u} && visited == num.Keys + (stack + {u}) && u !in stack
    requires forall x :: x in num ==> num[x] < |num|
    ensures var num' := num[u := |num|];
            num'.Keys !! stack && visited == num'.Keys + stack && forall x :: x in num' ==> num'[x] < |num'|
  {
    var num' := num[u := |num|];
    OneMoreKeys(num.Keys, num'.Keys, stack, visited, u);
  }

  lemma OneMoreKeys(keys: set<Id>, keys': set<Id>, stack: set<Id>, visited: set<Id>, u: Id)
    requires keys !! stack + {u} && visited == keys + (stack + {u}) && u !in stack && keys' == keys + {u}
    ensures keys' !! stack && visited == keys' + stack && |keys'| == |keys| + 1
  {
    assert keys + (stack + {u}) == keys + {u} + stack;
  }

  lemma Renumbered(edges: Edges, num: map<Id, nat>, u: Id)
    requires Numbered(edges, num) && u !in num && forall x :: x in num ==> num[x] < |num|
    requires forall e :: e in edges && edges[e].u == u ==> edges[e].v in num
    ensures Numbered(edges, num[u := |num|])
  {
  }

  /** Deletes an edge and adds it again the other way round; the flag is set on the way out and
      removed on the way back. */
  method Reverse<NV>(g: Digraph<NV, EdgeAttr>, e: Id)
    requires g.Valid() && e in g.edges
    modifies g
    ensures g.Valid() && g.nodes == old(g.nodes) && g.nextId == old(g.nextId)
    ensures g.edges == old(g.edges)[e := Flip(old(g.edges)[e])]
  {
    var d := g.edges[e];
    g.Ends();
    hide Digraph.Valid;
    var _ := g.DelEdge(e);
    var _ := g.AddEdge(Some(e), d.v, d.u, d.value.(reversed := !d.value.reversed));
  }

  /** u has been visited, besides those before. */
  ghost predicate Spread(visited: set<Id>, u: Id, visited': set<Id>, nodes: set<Id>) {
    visited + {u} <= visited' <= nodes && u !in visited
  }

  lemma Spreads(visited: set<Id>, u: Id, visited': set<Id>, nodes: set<Id>)
    requires visited' == visited + {u} && visited <= nodes && u in nodes && u !in visited
    ensures Spread(visited, u, visited', nodes)
  {
  }

  lemma Fewer(visited: set<Id>, u: Id, visited': set<Id>, nodes: set<Id>)
    requires Spread(visited, u, visited', nodes)
    ensures nodes - visited' < nodes - visited && u in visited' && visited <= visited' <= nodes
  {
  }

  lemma StillSpread(visited: set<Id>, u: Id, was: set<Id>, visited': set<Id>, nodes: set<Id>)
    requires Spread(visited, u, was, nodes) && was <= visited' <= nodes
    ensures Spread(visited, u, visited', nodes)
  {
  }

  lemma NextRest(es: seq<Id>, i: nat)
    requires i < |es|
    ensures es[i..] != [] && es[i..][0] == es[i] && es[i..][1..] == es[i + 1..]
  {
  }

  /** The search from u: afterwards u and everything it opened is finished. */
  method Dfs<NV>(g: Digraph<NV, EdgeAttr>, ghost before: Edges, u: Id, visited: set<Id>, onStack: set<Id>,
      ghost num: map<Id, nat>)
    returns (visited': set<Id>, ghost num': map<Id, nat>)
    requires g.Valid() && u in g.nodes && visited <= g.nodes.Keys
    requires Searching(before, g.edges, num, onStack, visited) && Behind(before, onStack, u)
    modifies g
    ensures g.Valid() && g.nodes == old(g.nodes) && g.nextId == old(g.nextId)
    ensures u in visited' && visited <= visited' <= g.nodes.Keys
    ensures Searched(before, old(g.edges), num, g.edges, num', onStack, visited')
    decreases g.nodes.Keys - visited, 0, 1
  {
    NothingYet(before, g.edges, num, onStack, visited);
    hide *;
    if u in visited {
      return visited, num;
    }
    var outEdges := g.OutEdges(u);
    var es := Listing(outEdges.value);
    Open(before, g.edges, num, onStack, visited, u, es);
    Spreads(visited, u, visited + {u}, g.nodes.Keys);
    visited', num' := FollowAll(g, before, u, es, visited, onStack, num);
    num' := num'[u := |num'|];
  }

  /** The loop over the edges out of u. */
  method FollowAll<NV>(g: Digraph<NV, EdgeAttr>, ghost before: Edges, u: Id, es: seq<Id>, visited: set<Id>, onStack: set<Id>,
      ghost num: map<Id, nat>)
    returns (visited': set<Id>, ghost num': map<Id, nat>)
    requires g.Valid() && Spread(visited, u, visited + {u}, g.nodes.Keys) && Behind(before, onStack, u)
    requires Following(before, g.edges, num, g.edges, num, onStack, visited + {u}, u, es)
    modifies g
    ensures g.Valid() && g.nodes == old(g.nodes) && g.nextId == old(g.nextId)
    ensures u in visited' && visited <= visited' <= g.nodes.Keys
    ensures Searched(before, old(g.edges), num, g.edges, num'[u := |num'|], onStack, visited')
    decreases g.nodes.Keys - visited, 0, 0
  {
    hide *;
    visited', num' := visited + {u}, num;
    ghost var from := g.edges;
    assert es[0..] == es;
    var i := 0;
    while i < |es|
      invariant i <= |es|
      invariant g.Valid() && g.nodes == old(g.nodes) && g.nextId == old(g.nextId)
      invariant Spread(visited, u, visited', g.nodes.Keys)
      invariant Following(before, from, num, g.edges, num', onStack, visited', u, es[i..])
    {
      NextRest(es, i);
      Fewer(visited, u, visited', g.nodes.Keys);
      ghost var was := visited';
      visited', num' := Follow(g, before, from, u, es[i], es[i..], visited', onStack, num, num');
      StillSpread(visited, u, was, visited', g.nodes.Keys);
      i := i + 1;
    }
    Fewer(visited, u, visited', g.nodes.Keys);
    Close(before, from, num, g.edges, num', onStack, visited', u, es[i..]);
  }

  /** One round of the loop over the edges out of u. */
  method Follow<NV>(g: Digraph<NV, EdgeAttr>, ghost before: Edges, ghost from: Edges, u: Id, e: Id, ghost rest: seq<Id>,
      visited: set<Id>, onStack: set<Id>, ghost num0: map<Id, nat>, ghost num: map<Id, nat>)
    returns (visited': set<Id>, ghost num': map<Id, nat>)
    requires g.Valid() && rest != [] && e == rest[0] && visited <= g.nodes.Keys
    requires Following(before, from, num0, g.edges, num, onStack, visited, u, rest) && Behind(before, onStack, u)
    modifies g
    ensures g.Valid() && g.nodes == old(g.nodes) && g.nextId == old(g.nextId)
    ensures visited <= visited' <= g.nodes.Keys
    ensures Following(before, from, num0, g.edges, num', onStack, visited', u, rest[1..])
    decreases g.nodes.Keys - visited, 1, 0
  {
    NextEdge(before, from, num0, g.edges, num, onStack, visited, u, rest);
    g.Ends();
    hide *;
    var d := g.edges[e];
    if d.v in onStack + {u} {
      FollowBack(before, from, num0, g.edges, num, onStack, visited, u, rest);
      Reverse(g, e);
      return visited, num;
    }
    ghost var edges := g.edges;
    EndsAt(edges, g.nodes.Keys, e);
    BehindStep(before, onStack, u, e);
    visited', num' := Dfs(g, before, d.v, visited, onStack + {u}, num);
    Finished(before, edges, num, g.edges, num', onStack + {u}, visited', d.v);
    FollowDown(before, from, num0, edges, num, g.edges, num', onStack, visited, visited', u, rest);
  }

  lemma Finished(before: Edges, from: Edges, num0: map<Id, nat>, edges: Edges, num: map<Id, nat>, stack: set<Id>, visited: set<Id>, u: Id)
    requires Searched(before, from, num0, edges, num, stack, visited) && u in visited && u !in stack
    ensures u in num
  {
  }

  lemma EndsAt(edges: Edges, nodes: set<Id>, e: Id)
    requires EndsIn(edges, nodes) && e in edges
    ensures edges[e].u in nodes && edges[e].v in nodes
  {
  }

  /** Reverses edges until no cycle is left, and counts how many it reversed. */
  method Acyclic<NV>(g: Digraph<NV, EdgeAttr>)
    requires g.Valid() && NoSelfLoops(g.edges) && NoneReversed(g.edges)
    modifies g
    ensures g.Valid() && g.nodes == old(g.nodes) && g.nextId == old(g.nextId)
    ensures SomeFlipped(old(g.edges), g.edges) && IsAcyclic(g.edges)
    ensures forall e :: e in g.edges && g.edges[e] != old(g.edges)[e] ==> OnCycle(old(g.edges), e)
  {
    ghost var before := g.edges;
    ghost var num: map<Id, nat> := map[];
    var visited: set<Id> := {};
    var us := Listing(g.nodes.Keys);
    UptoEnds(us, g.nodes.Keys);
    NothingVisited(before);
    hide *;
    for i := 0 to |us|
      invariant g.Valid() && g.nodes == old(g.nodes) && g.nextId == old(g.nextId)
      invariant Searching(before, g.edges, num, {}, visited) && Upto(us, i) <= visited <= g.nodes.Keys
    {
      UptoStep(us, g.nodes.Keys, i);
      ghost var from, num0 := g.edges, num;
      NothingBehind(before, us[i]);
      visited, num := Dfs(g, before, us[i], visited, {}, num);
      assert Searching(before, g.edges, num, {}, visited) by {
        Result(before, from, num0, g.edges, num, {}, visited);
      }
    }
    g.Ends();
    AllNumbered(before, g.edges, num, visited);
  }

  lemma NothingBehind(before: Edges, u: Id)
    ensures Behind(before, {}, u)
  {
  }

  lemma NothingVisited(before: Edges)
    requires NoSelfLoops(before) && NoneReversed(before)
    ensures Searching(before, before, map[], {}, {})
  {
  }

  lemma Result(before: Edges, from: Edges, num0: map<Id, nat>, edges: Edges, num: map<Id, nat>, stack: set<Id>, visited: set<Id>)
    requires Searched(before, from, num0, edges, num, stack, visited)
    ensures Searching(before, edges, num, stack, visited)
  {
  }

  lemma AllNumbered(before: Edges, edges: Edges, num: map<Id, nat>, visited: set<Id>)
    requires Searching(before, edges, num, {}, visited) && EndsIn(edges, visited)
    ensures SomeFlipped(before, edges) && IsAcyclic(edges)
    ensures forall e :: e in edges && edges[e] != before[e] ==> OnCycle(before, e)
  {
    assert num.Keys == visited;
    NumberedIsAcyclic(edges, num);
  }

  /** Restores the direction of every flagged edge. */
  method Undo<NV>(g: Digraph<NV, EdgeAttr>)
    requires g.Valid()
    modifies g
    ensures g.Valid() && g.nodes == old(g.nodes) && g.nextId == old(g.nextId)
    ensures g.edges == HalfUpright(old(g.edges), old(g.edges).Keys)
  {
    ghost var before := g.edges;
    var es := Listing(g.edges.Keys);
    UptoEnds(es, before.Keys);
    assert HalfUpright(before, {}) == before;
    hide Upto, Digraph.Valid;
    for i := 0 to |es|
      invariant g.Valid() && g.nodes == old(g.nodes) && g.nextId == old(g.nextId)
      invariant g.edges == HalfUpright(before, Upto(es, i))
    {
      UptoStep(es, before.Keys, i);
      UprightStep(before, Upto(es, i), es[i]);
      if g.edges[es[i]].value.reversed {
        Reverse(g, es[i]);
      }
    }
  }

  /** The edges in `done` have been put upright. */
  ghost function HalfUpright(before: Edges, done: set<Id>): Edges {
    map e | e in before :: if e in done then Upright(before[e]) else before[e]
  }

  lemma UprightStep(before: Edges, done: set<Id>, e: Id)
    requires e in before && e !in done
    ensures HalfUpright(before, done)[e] == before[e]
    ensures HalfUpright(before, done + {e}) ==
            if before[e].value.reversed then HalfUpright(before, done)[e := Flip(before[e])] else HalfUpright(before, done)
  {
  }

  /** Undoing restores exactly the graph that was made acyclic. */
  method MakeAcyclicAndBack<NV>(g: Digraph<NV, EdgeAttr>)
    requires g.Valid() && NoSelfLoops(g.edges) && NoneReversed(g.edges)
    modifies g
    ensures g.Valid() && g.nodes == old(g.nodes) && g.edges == old(g.edges)
  {
    Acyclic(g);
    UprightFlipped(old(g.edges), g.edges);
    Undo(g);
  }

  lemma UprightFlipped(before: Edges, after: Edges)
    requires NoneReversed(before) && SomeFlipped(before, after)
    ensures HalfUpright(after, after.Keys) == before
  {
  }
}
