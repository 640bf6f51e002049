/** The layout graph: what a node and an edge carry while the layout runs, and the sense in which
    the graph still holds every original edge. */
module LayoutGraphs {
  import opened Base
  import opened Digraphs
  import opened Acyclics
  import opened TopSorts
  import opened TightTrees

  /** On a dummy node: the edge it stands for, and which control point of it, if any. */
  datatype DummyOf = DummyOf(id: Id, source: Id, target: Id, attrs: EdgeAttr, index: Option<nat>)

  datatype NodeAttr = NodeAttr(edge: Option<DummyOf>, rank: int)

  type Nodes = map<Id, NodeAttr>

  ghost predicate Plain(nodes: Nodes, u: Id) {
    u in nodes && nodes[u].edge.None?
  }

  /** A dummy node from which undoing will restore its edge. */
  ghost predicate Recorded(nodes: Nodes, n: Id) {
    n in nodes && nodes[n].edge.Some? && nodes[n].edge.value.index.Some?
  }

  function RecordOf(d: DummyOf): Edge<EdgeAttr> {
    Edge(d.source, d.target, d.attrs)
  }

  ghost predicate Direct(nodes: Nodes, edges: Edges, e: Id) {
    e in edges && Plain(nodes, edges[e].u) && Plain(nodes, edges[e].v)
  }

  ghost predicate RecordedSomewhere(nodes: Nodes, e: Id) {
    exists n :: Recorded(nodes, n) && nodes[n].edge.value.id == e
  }

  /** The graph holds exactly the edges `core` among the nodes `orig`: each is there directly or
      recorded on a dummy, and nothing else is. */
  ghost predicate Represents(core: Edges, orig: set<Id>, nodes: Nodes, edges: Edges) {
    && (forall u :: u in orig <==> Plain(nodes, u))
    && EndsIn(core, orig)
    && (forall e :: Direct(nodes, edges, e) ==> e in core && core[e] == edges[e])
    && (forall e :: e in core && e in edges ==> Direct(nodes, edges, e))
    && (forall n :: Recorded(nodes, n) ==>
          nodes[n].edge.value.id in core && core[nodes[n].edge.value.id] == RecordOf(nodes[n].edge.value))
    && (forall e :: e in core ==> e in edges || RecordedSomewhere(nodes, e))
  }

  /** The ids of core were generated before nextId. */
  ghost predicate Issued(core: Edges, nextId: nat) {
    forall e :: e in core ==> e.Gen? && e.n <= nextId
  }

  /** Adding a dummy that records an edge of core, or none. */
  lemma AddDummyKeeps(core: Edges, orig: set<Id>, nodes: Nodes, edges: Edges, n: Id, a: NodeAttr)
    requires Represents(core, orig, nodes, edges) && EndsIn(edges, nodes.Keys)
    requires n !in nodes && a.edge.Some?
    requires a.edge.value.index.Some? ==> a.edge.value.id in core && core[a.edge.value.id] == RecordOf(a.edge.value)
    ensures Represents(core, orig, nodes[n := a], edges)
    ensures a.edge.value.index.Some? ==> RecordedSomewhere(nodes[n := a], a.edge.value.id)
    ensures forall e :: RecordedSomewhere(nodes, e) ==> RecordedSomewhere(nodes[n := a], e)
  {
    var nodes' := nodes[n := a];
    forall e | RecordedSomewhere(nodes, e) ensures RecordedSomewhere(nodes', e) {
      var m :| Recorded(nodes, m) && nodes[m].edge.value.id == e;
      assert Recorded(nodes', m);
    }
    if a.edge.value.index.Some? {
      assert Recorded(nodes', n);
    }
    hide RecordedSomewhere;
    forall e | Direct(nodes', edges, e) ensures e in core && core[e] == edges[e] {
      assert Direct(nodes, edges, e);
    }
    forall e | e in core && e in edges ensures Direct(nodes', edges, e) {
      assert Direct(nodes, edges, e);
    }
  }

  /** Adding an edge at a dummy, under an id that is not an original one. */
  lemma AddHelperKeeps(core: Edges, orig: set<Id>, nodes: Nodes, edges: Edges, e: Id, d: Edge<EdgeAttr>)
    requires Represents(core, orig, nodes, edges)
    requires e !in core && (!Plain(nodes, d.u) || !Plain(nodes, d.v)) 
    ensures Represents(core, orig, nodes, edges[e := d])
  {
    hide RecordedSomewhere;
    forall f | Direct(nodes, edges[e := d], f) ensures f in core && core[f] == edges[e := d][f] {
      assert f != e;
      assert Direct(nodes, edges, f);
    }
    forall f | f in core && f in edges[e := d] ensures Direct(nodes, edges[e := d], f) {
      assert Direct(nodes, edges, f);
    }
  }

  /** Deleting an edge that is recorded, or that is no original one. */
  lemma DeleteKeeps(core: Edges, orig: set<Id>, nodes: Nodes, edges: Edges, e: Id)
    requires Represents(core, orig, nodes, edges)
    requires e !in core || RecordedSomewhere(nodes, e)
    ensures Represents(core, orig, nodes, edges - {e})
  {
    hide RecordedSomewhere;
    forall f | Direct(nodes, edges - {e}, f) ensures f in core && core[f] == (edges - {e})[f] {
      assert Direct(nodes, edges, f);
    }
    forall f | f in core && f in edges - {e} ensures Direct(nodes, edges - {e}, f) {
      assert Direct(nodes, edges, f);
    }
  }

  // ---------- self loops ----------

  /** The four edges that replace a self loop at u: x -> u, x -> y, u -> z, y -> z. */
  datatype Loop = Loop(u: Id, x: Id, y: Id, z: Id, xu: Id, xy: Id, uz: Id, yz: Id)

  const HELPER := EdgeAttr(None, 1, false)

  ghost predicate LoopEdges(edges: Edges, l: Loop) {
    && l.xu in edges && edges[l.xu] == Edge(l.x, l.u, HELPER)
    && l.xy in edges && edges[l.xy] == Edge(l.x, l.y, HELPER)
    && l.uz in edges && edges[l.uz] == Edge(l.u, l.z, HELPER)
    && l.yz in edges && edges[l.yz] == Edge(l.y, l.z, HELPER)
  }

  /** No other edge touches x, y or z. */
  ghost predicate LoopAlone(edges: Edges, l: Loop) {
    forall e :: e in edges ==>
      && edges[e].v != l.x && edges[e].u != l.z
      && (edges[e].u == l.x ==> e == l.xu || e == l.xy)
      && (edges[e].v == l.y ==> e == l.xy) && (edges[e].u == l.y ==> e == l.yz)
      && (edges[e].v == l.z ==> e == l.uz || e == l.yz)
  }

  ghost predicate LoopIn(nodes: Nodes, edges: Edges, l: Loop) {
    && Plain(nodes, l.u) && Recorded(nodes, l.x) && Recorded(nodes, l.y) && Recorded(nodes, l.z)
    && l.x != l.y && l.y != l.z && l.x != l.z
    && LoopEdges(edges, l) && LoopAlone(edges, l) && Remembers(nodes, l.x, l.u, 0) && Remembers(nodes, l.y, l.u, 1)
    && Remembers(nodes, l.z, l.u, 2)
  }

  /** The dummy n stands for a self loop at u, as its k-th control point. */
  ghost predicate Remembers(nodes: Nodes, n: Id, u: Id, k: nat) {
    n in nodes && nodes[n].edge.Some? && nodes[n].edge.value.source == nodes[n].edge.value.target == u && nodes[n].edge.value.index == Some(k)
  }

  /** The dummies are exactly those of the expanded self loops. */
  ghost predicate LoopsIn(nodes: Nodes, edges: Edges, loops: set<Loop>) {
    AllLoopsIn(nodes, edges, loops) && DummiesOf(nodes, loops)
  }

  ghost predicate AllLoopsIn(nodes: Nodes, edges: Edges, loops: set<Loop>) {
    forall l :: l in loops ==> LoopIn(nodes, edges, l)
  }

  ghost predicate DummiesOf(nodes: Nodes, loops: set<Loop>) {
    forall n :: n in nodes && nodes[n].edge.Some? ==> exists l :: l in loops && OfLoop(n, l)
  }

  ghost predicate OfLoop(n: Id, l: Loop) {
    n == l.x || n == l.y || n == l.z
  }

  function LoopDummy(e: Id, d: Edge<EdgeAttr>, index: nat): NodeAttr {
    NodeAttr(Some(DummyOf(e, d.u, d.v, d.value, Some(index))), 0)
  }

  ghost function ExpandedNodes(nodes: Nodes, e: Id, d: Edge<EdgeAttr>, l: Loop): Nodes {
    nodes[l.x := LoopDummy(e, d, 0)][l.y := LoopDummy(e, d, 1)][l.z := LoopDummy(e, d, 2)]
  }

  ghost function ExpandedEdges(edges: Edges, e: Id, l: Loop): Edges {
    edges[l.xu := Edge(l.x, l.u, HELPER)][l.xy := Edge(l.x, l.y, HELPER)][l.uz := Edge(l.u, l.z, HELPER)][l.yz := Edge(l.y, l.z, HELPER)] - {e}
  }

  /** The new nodes and edges are new. */
  ghost predicate FreshLoop(nodes: Nodes, edges: Edges, nextId: nat, l: Loop) {
    && l.x !in nodes && l.y !in nodes && l.z !in nodes && l.x != l.y && l.y != l.z && l.x != l.z
    && (forall i :: i in {l.xu, l.xy, l.uz, l.yz} ==> i.Gen? && i.n > nextId && i !in edges)
    && l.xu != l.xy && l.xu != l.uz && l.xu != l.yz && l.xy != l.uz && l.xy != l.yz && l.uz != l.yz
  }

  method AddLoopNodes(g: Digraph<NodeAttr, EdgeAttr>, e: Id, d: Edge<EdgeAttr>) returns (x: Id, y: Id, z: Id)
    requires g.Valid()
    modifies g
    ensures g.Valid() && g.nextId >= old(g.nextId) && g.edges == old(g.edges)
    ensures x !in old(g.nodes) && y !in old(g.nodes) && z !in old(g.nodes) && x != y && y != z && x != z
    ensures x.Gen? && y.Gen? && z.Gen?
    ensures g.nodes == old(g.nodes)[x := LoopDummy(e, d, 0)][y := LoopDummy(e, d, 1)][z := LoopDummy(e, d, 2)]
  {
    hide *;
    var nx := g.AddNode(None, LoopDummy(e, d, 0));
    var ny := g.AddNode(None, LoopDummy(e, d, 1));
    var nz := g.AddNode(None, LoopDummy(e, d, 2));
    x, y, z := nx.value, ny.value, nz.value;
  }

  method AddLoopEdges(g: Digraph<NodeAttr, EdgeAttr>, u: Id, x: Id, y: Id, z: Id) returns (xu: Id, xy: Id, uz: Id, yz: Id)
    requires g.Valid() && u in g.nodes && x in g.nodes && y in g.nodes && z in g.nodes
    modifies g
    ensures g.Valid() && g.nextId >= old(g.nextId) && g.nodes == old(g.nodes)
    ensures xu.Gen? && xy.Gen? && uz.Gen? && yz.Gen? && old(g.nextId) < xu.n < xy.n < uz.n < yz.n <= g.nextId
    ensures xu !in old(g.edges) && xy !in old(g.edges) && uz !in old(g.edges) && yz !in old(g.edges)
    ensures g.edges == old(g.edges)[xu := Edge(x, u, HELPER)][xy := Edge(x, y, HELPER)][uz := Edge(u, z, HELPER)][yz := Edge(y, z, HELPER)]
  {
    hide *;
    var e1 := g.AddEdge(None, x, u, HELPER);
    var e2 := g.AddEdge(None, x, y, HELPER);
    var e3 := g.AddEdge(None, u, z, HELPER);
    var e4 := g.AddEdge(None, y, z, HELPER);
    xu, xy, uz, yz := e1.value, e2.value, e3.value, e4.value;
  }

  /** Replaces one self loop by three dummies and four helper edges. */
  method ExpandSelfLoop(g: Digraph<NodeAttr, EdgeAttr>, e: Id) returns (ghost l: Loop)
    requires g.Valid() && e in g.edges && g.edges[e].u == g.edges[e].v && g.edges[e].u in g.nodes
    modifies g
    ensures g.Valid() && g.nextId >= old(g.nextId)
    ensures l.u == old(g.edges)[e].u && FreshLoop(old(g.nodes), old(g.edges), old(g.nextId), l)
    ensures l.xu.n <= g.nextId && l.xy.n <= g.nextId && l.uz.n <= g.nextId && l.yz.n <= g.nextId
    ensures g.nodes == ExpandedNodes(old(g.nodes), e, old(g.edges)[e], l)
    ensures g.edges == ExpandedEdges(old(g.edges), e, l)
    ensures l.x.Gen? && l.y.Gen? && l.z.Gen?
  {
    hide Digraph.Valid, LoopDummy;
    var d := g.edges[e];
    var x, y, z := AddLoopNodes(g, e, d);
    var xu, xy, uz, yz := AddLoopEdges(g, d.u, x, y, z);
    var _ := g.DelEdge(e);
    l := Loop(d.u, x, y, z, xu, xy, uz, yz);
  }

  /** Expanding a self loop keeps what the graph represents. */
  lemma ExpandKeeps(core: Edges, orig: set<Id>, nodes: Nodes, edges: Edges, nextId: nat, e: Id, l: Loop)
    requires Represents(core, orig, nodes, edges) && EndsIn(edges, nodes.Keys) && Issued(core, nextId)
    requires e in core && e in edges && edges[e].u == edges[e].v == l.u && FreshLoop(nodes, edges, nextId, l)
    ensures Represents(core, orig, ExpandedNodes(nodes, e, edges[e], l), ExpandedEdges(edges, e, l))
  {
    var d := edges[e];
    assert Direct(nodes, edges, e);
    var n1 := nodes[l.x := LoopDummy(e, d, 0)];
    var n2 := n1[l.y := LoopDummy(e, d, 1)];
    var n3 := n2[l.z := LoopDummy(e, d, 2)];
    var e1 := edges[l.xu := Edge(l.x, l.u, HELPER)];
    var e2 := e1[l.xy := Edge(l.x, l.y, HELPER)];
    var e3 := e2[l.uz := Edge(l.u, l.z, HELPER)];
    var e4 := e3[l.yz := Edge(l.y, l.z, HELPER)];
    assert !Plain(n3, l.x) && !Plain(n3, l.z);
    assert EndsIn(edges, n1.Keys) && EndsIn(edges, n2.Keys);
    hide Represents, RecordedSomewhere, EndsIn, Plain;
    AddDummyKeeps(core, orig, nodes, edges, l.x, LoopDummy(e, d, 0));
    AddDummyKeeps(core, orig, n1, edges, l.y, LoopDummy(e, d, 1));
    AddDummyKeeps(core, orig, n2, edges, l.z, LoopDummy(e, d, 2));
    AddHelperKeeps(core, orig, n3, edges, l.xu, Edge(l.x, l.u, HELPER));
    AddHelperKeeps(core, orig, n3, e1, l.xy, Edge(l.x, l.y, HELPER));
    AddHelperKeeps(core, orig, n3, e2, l.uz, Edge(l.u, l.z, HELPER));
    AddHelperKeeps(core, orig, n3, e3, l.yz, Edge(l.y, l.z, HELPER));
    DeleteKeeps(core, orig, n3, e4, e);
  }

  lemma ExpandLoops(core: Edges, orig: set<Id>, nodes: Nodes, edges: Edges, nextId: nat, loops: set<Loop>, e: Id, l: Loop)
    requires EndsIn(edges, nodes.Keys) && LoopsIn(nodes, edges, loops) && Direct(nodes, edges, e)
    requires edges[e].u == edges[e].v == l.u && FreshLoop(nodes, edges, nextId, l)
    ensures LoopsIn(ExpandedNodes(nodes, e, edges[e], l), ExpandedEdges(edges, e, l), loops + {l})
  {
    NodesKept(nodes, edges, nextId, e, edges[e], l);
    hide LoopIn, ExpandedNodes, ExpandedEdges, EndsIn, Direct, FreshLoop, AllLoopsIn, DummiesOf, OfLoop;
    AllLoops(nodes, edges, nextId, loops, e, l);
    MoreDummies(nodes, ExpandedNodes(nodes, e, edges[e], l), loops, l);
  }

  lemma MoreDummies(nodes: Nodes, nodes': Nodes, loops: set<Loop>, l: Loop)
    requires DummiesOf(nodes, loops)
    requires forall n :: n in nodes ==> n in nodes' && nodes'[n] == nodes[n]
    requires forall n :: n in nodes' ==> n in nodes || OfLoop(n, l)
    ensures DummiesOf(nodes', loops + {l})
  {
    forall n | n in nodes' && nodes'[n].edge.Some? ensures exists k :: k in loops + {l} && OfLoop(n, k) {
      if n in nodes {
        var k :| k in loops && OfLoop(n, k);
        assert k in loops + {l};
      } else {
        assert l in loops + {l};
      }
    }
  }

  lemma AllLoops(nodes: Nodes, edges: Edges, nextId: nat, loops: set<Loop>, e: Id, l: Loop)
    requires EndsIn(edges, nodes.Keys) && AllLoopsIn(nodes, edges, loops) && Direct(nodes, edges, e) && e in edges
    requires edges[e].u == edges[e].v == l.u && FreshLoop(nodes, edges, nextId, l)
    ensures AllLoopsIn(ExpandedNodes(nodes, e, edges[e], l), ExpandedEdges(edges, e, l), loops + {l})
  {
    hide LoopIn, ExpandedNodes, ExpandedEdges, EndsIn, Direct, FreshLoop;
    forall k | k in loops + {l} ensures LoopIn(ExpandedNodes(nodes, e, edges[e], l), ExpandedEdges(edges, e, l), k) {
      if k in loops {
        OldLoop(nodes, edges, nextId, e, l, k);
      } else {
        NewLoop(nodes, edges, nextId, e, l);
      }
    }
  }

  lemma NodesKept(nodes: Nodes, edges: Edges, nextId: nat, e: Id, d: Edge<EdgeAttr>, l: Loop)
    requires FreshLoop(nodes, edges, nextId, l)
    ensures var nodes' := ExpandedNodes(nodes, e, d, l);
            && (forall n :: n in nodes ==> n in nodes' && nodes'[n] == nodes[n])
            && (forall n :: n in nodes' ==> n in nodes || OfLoop(n, l))
  {
  }

  lemma NewLoop(nodes: Nodes, edges: Edges, nextId: nat, e: Id, l: Loop)
    requires EndsIn(edges, nodes.Keys) && Direct(nodes, edges, e) && e in edges && edges[e].u == edges[e].v == l.u && FreshLoop(nodes, edges, nextId, l)
    ensures LoopIn(ExpandedNodes(nodes, e, edges[e], l), ExpandedEdges(edges, e, l), l)
  {
  }

  lemma OldLoop(nodes: Nodes, edges: Edges, nextId: nat, e: Id, l: Loop, k: Loop)
    requires EndsIn(edges, nodes.Keys) && Direct(nodes, edges, e) && e in edges && edges[e].u == edges[e].v == l.u && FreshLoop(nodes, edges, nextId, l)
    requires LoopIn(nodes, edges, k)
    ensures LoopIn(ExpandedNodes(nodes, e, edges[e], l), ExpandedEdges(edges, e, l), k)
  {
  }

  /** The layout graph between phases: it represents core, its other edges are helpers, and its
      dummies are those of the expanded self loops. */
  ghost predicate Looped(core: Edges, orig: set<Id>, nodes: Nodes, edges: Edges, nextId: nat, loops: set<Loop>) {
    && Represents(core, orig, nodes, edges) && EndsIn(edges, nodes.Keys) && Issued(core, nextId)
    && LoopsIn(nodes, edges, loops) && HelpersOf(core, edges, loops) && NotThere(nodes, edges)
    && (forall n :: n in nodes ==> !n.Dummy?)
  }

  ghost predicate HelpersOf(core: Edges, edges: Edges, loops: set<Loop>) {
    forall e :: e in edges && e !in core ==> exists l :: l in loops && LoopEdge(e, l)
  }

  ghost predicate LoopEdge(e: Id, l: Loop) {
    e == l.xu || e == l.xy || e == l.uz || e == l.yz
  }

  /** A recorded edge is not in the graph. */
  ghost predicate NotThere(nodes: Nodes, edges: Edges) {
    forall n :: Recorded(nodes, n) ==> nodes[n].edge.value.id !in edges
  }

  /** Only edges of `rest` are self loops. */
  ghost predicate LoopsAmong(core: Edges, edges: Edges, rest: set<Id>) {
    && (forall e :: e in rest ==> e in edges && e in core)
    && (forall e :: e in edges && edges[e].u == edges[e].v ==> e in rest)
  }

  /** The situation in which the self loop e, still to come, is about to be replaced by l. */
  ghost predicate AboutToExpand(core: Edges, orig: set<Id>, nodes: Nodes, edges: Edges, nextId: nat, loops: set<Loop>, rest: set<Id>, e: Id, l: Loop) {
    && Looped(core, orig, nodes, edges, nextId, loops) && LoopsAmong(core, edges, rest) && e in rest
    && edges[e].u == edges[e].v == l.u && FreshLoop(nodes, edges, nextId, l)
    && l.x.Gen? && l.y.Gen? && l.z.Gen?
  }

  lemma ExpandStep(core: Edges, orig: set<Id>, nodes: Nodes, edges: Edges, nextId: nat, nextId': nat, loops: set<Loop>, rest: set<Id>, e: Id, l: Loop)
    requires AboutToExpand(core, orig, nodes, edges, nextId, loops, rest, e, l) && nextId <= nextId' && e in edges
    ensures Looped(core, orig, ExpandedNodes(nodes, e, edges[e], l), ExpandedEdges(edges, e, l), nextId', loops + {l})
    ensures LoopsAmong(core, ExpandedEdges(edges, e, l), rest - {e})
  {
    hide *;
    var nodes', edges' := ExpandedNodes(nodes, e, edges[e], l), ExpandedEdges(edges, e, l);
    ExpandStepGraph(core, orig, nodes, edges, nextId, loops, rest, e, l);
    ExpandStepLoops(core, orig, nodes, edges, nextId, loops, rest, e, l);
    ExpandStepIds(core, orig, nodes, edges, nextId, nextId', loops, rest, e, l);
    IsLooped(core, orig, nodes', edges', nextId', loops + {l});
  }

  lemma IsLooped(core: Edges, orig: set<Id>, nodes: Nodes, edges: Edges, nextId: nat, loops: set<Loop>)
    requires Represents(core, orig, nodes, edges) && EndsIn(edges, nodes.Keys) && Issued(core, nextId)
    requires LoopsIn(nodes, edges, loops) && HelpersOf(core, edges, loops) && NotThere(nodes, edges)
    requires forall n :: n in nodes ==> !n.Dummy?
    ensures Looped(core, orig, nodes, edges, nextId, loops)
  {
    hide Represents, EndsIn, Issued, LoopsIn, HelpersOf, NotThere;
  }

  lemma LoopedParts(core: Edges, orig: set<Id>, nodes: Nodes, edges: Edges, nextId: nat, loops: set<Loop>)
    requires Looped(core, orig, nodes, edges, nextId, loops)
    ensures Represents(core, orig, nodes, edges) && EndsIn(edges, nodes.Keys) && Issued(core, nextId)
    ensures LoopsIn(nodes, edges, loops) && HelpersOf(core, edges, loops) && NotThere(nodes, edges)
    ensures forall n :: n in nodes ==> !n.Dummy?
  {
    hide Represents, EndsIn, Issued, LoopsIn, HelpersOf, NotThere;
  }

  lemma ExpandStepGraph(core: Edges, orig: set<Id>, nodes: Nodes, edges: Edges, nextId: nat, loops: set<Loop>, rest: set<Id>, e: Id, l: Loop)
    requires AboutToExpand(core, orig, nodes, edges, nextId, loops, rest, e, l) && e in edges
    ensures Represents(core, orig, ExpandedNodes(nodes, e, edges[e], l), ExpandedEdges(edges, e, l))
    ensures NotThere(ExpandedNodes(nodes, e, edges[e], l), ExpandedEdges(edges, e, l))
  {
    hide LoopsIn, HelpersOf, ExpandedNodes, ExpandedEdges, FreshLoop, EndsIn;
    assert forall n :: Recorded(nodes, n) ==> nodes[n].edge.value.id.Gen? && nodes[n].edge.value.id.n <= nextId;
    hide Represents, NotThere, Issued;
    ExpandKeeps(core, orig, nodes, edges, nextId, e, l);
    StillNotThere(nodes, edges, nextId, e, l);
  }

  lemma ExpandStepLoops(core: Edges, orig: set<Id>, nodes: Nodes, edges: Edges, nextId: nat, loops: set<Loop>, rest: set<Id>, e: Id, l: Loop)
    requires AboutToExpand(core, orig, nodes, edges, nextId, loops, rest, e, l) && e in edges
    ensures LoopsIn(ExpandedNodes(nodes, e, edges[e], l), ExpandedEdges(edges, e, l), loops + {l})
    ensures HelpersOf(core, ExpandedEdges(edges, e, l), loops + {l})
    ensures EndsIn(ExpandedEdges(edges, e, l), ExpandedNodes(nodes, e, edges[e], l).Keys)
  {
    hide LoopsIn, HelpersOf, NotThere, ExpandedNodes, ExpandedEdges, FreshLoop, EndsIn, RecordedSomewhere;
    assert Direct(nodes, edges, e) && l.u in nodes;
    hide Represents, Direct;
    EdgesKept(nodes, edges, nextId, e, l);
    MoreHelpers(core, edges, ExpandedEdges(edges, e, l), loops, l);
    ExpandLoops(core, orig, nodes, edges, nextId, loops, e, l);
  }

  lemma ExpandStepIds(core: Edges, orig: set<Id>, nodes: Nodes, edges: Edges, nextId: nat, nextId': nat, loops: set<Loop>, rest: set<Id>, e: Id, l: Loop)
    requires AboutToExpand(core, orig, nodes, edges, nextId, loops, rest, e, l) && nextId <= nextId' && e in edges
    ensures Issued(core, nextId') && LoopsAmong(core, ExpandedEdges(edges, e, l), rest - {e})
    ensures forall n :: n in ExpandedNodes(nodes, e, edges[e], l) ==> !n.Dummy?
  {
    hide LoopsIn, HelpersOf, NotThere, ExpandedNodes, ExpandedEdges, FreshLoop, Represents;
    assert l.u in nodes;
    NodesKept(nodes, edges, nextId, e, edges[e], l);
    EdgesKept(nodes, edges, nextId, e, l);
    hide EndsIn;
  }

  lemma MoreHelpers(core: Edges, edges: Edges, edges': Edges, loops: set<Loop>, l: Loop)
    requires HelpersOf(core, edges, loops)
    requires forall f :: f in edges' && f !in edges ==> LoopEdge(f, l)
    ensures HelpersOf(core, edges', loops + {l})
  {
    forall f | f in edges' && f !in core ensures exists k :: k in loops + {l} && LoopEdge(f, k) {
      if f in edges {
        var k :| k in loops && LoopEdge(f, k);
        assert k in loops + {l};
      } else {
        assert l in loops + {l};
      }
    }
  }

  lemma StillNotThere(nodes: Nodes, edges: Edges, nextId: nat, e: Id, l: Loop)
    requires NotThere(nodes, edges) && FreshLoop(nodes, edges, nextId, l) && e in edges
    requires forall n :: Recorded(nodes, n) ==> nodes[n].edge.value.id.Gen? && nodes[n].edge.value.id.n <= nextId
    ensures NotThere(ExpandedNodes(nodes, e, edges[e], l), ExpandedEdges(edges, e, l))
  {
  }

  lemma EdgesKept(nodes: Nodes, edges: Edges, nextId: nat, e: Id, l: Loop)
    requires FreshLoop(nodes, edges, nextId, l) && EndsIn(edges, nodes.Keys) && e in edges && l.u in nodes
    ensures var edges' := ExpandedEdges(edges, e, l);
            && (forall f :: f in edges && f != e ==> f in edges' && edges'[f] == edges[f])
            && (forall f :: f in edges' && f !in edges ==> LoopEdge(f, l) && edges'[f].u != edges'[f].v)
            && e !in edges'
            && EndsIn(edges', ExpandedNodes(nodes, e, edges[e], l).Keys)
  {
  }

  /** Replaces every self loop. */
  method ExpandSelfLoops(g: Digraph<NodeAttr, EdgeAttr>, ghost orig: set<Id>) returns (ghost loops: set<Loop>)
    requires g.Valid() && Looped(g.edges, orig, g.nodes, g.edges, g.nextId, {})
    modifies g
    ensures g.Valid() && Looped(old(g.edges), orig, g.nodes, g.edges, g.nextId, loops)
    ensures NoSelfLoops(g.edges)
  {
    hide *;
    ghost var core := g.edges;
    loops := {};
    var es := Listing(g.edges.Keys);
    UptoEnds(es, core.Keys);
    assert core.Keys - Upto(es, 0) == core.Keys;
    AllPending(core);
    for i := 0 to |es|
      invariant g.Valid() && Looped(core, orig, g.nodes, g.edges, g.nextId, loops)
      invariant LoopsAmong(core, g.edges, core.Keys - Upto(es, i))
    {
      UptoStep(es, core.Keys, i);
      Pending(core, orig, g.nodes, g.edges, g.nextId, loops, core.Keys - Upto(es, i), es[i]);
      assert core.Keys - Upto(es, i + 1) == core.Keys - Upto(es, i) - {es[i]};
      if g.edges[es[i]].u == g.edges[es[i]].v {
        ghost var nodes, edges, nextId := g.nodes, g.edges, g.nextId;
        ghost var l := ExpandSelfLoop(g, es[i]);
        Ready(core, orig, nodes, edges, nextId, loops, core.Keys - Upto(es, i), es[i], l);
        ExpandStep(core, orig, nodes, edges, nextId, g.nextId, loops, core.Keys - Upto(es, i), es[i], l);
        loops := loops + {l};
      } else {
        NotALoop(core, g.edges, core.Keys - Upto(es, i), es[i]);
      }
    }
    AllExpanded(core, g.edges, core.Keys - Upto(es, |es|));
  }

  lemma AllPending(core: Edges)
    ensures LoopsAmong(core, core, core.Keys)
  {
  }

  lemma Pending(core: Edges, orig: set<Id>, nodes: Nodes, edges: Edges, nextId: nat, loops: set<Loop>, rest: set<Id>, e: Id)
    requires Looped(core, orig, nodes, edges, nextId, loops) && LoopsAmong(core, edges, rest) && e in rest
    ensures e in edges && edges[e].u in nodes
  {
  }

  lemma Ready(core: Edges, orig: set<Id>, nodes: Nodes, edges: Edges, nextId: nat, loops: set<Loop>, rest: set<Id>, e: Id, l: Loop)
    requires Looped(core, orig, nodes, edges, nextId, loops) && LoopsAmong(core, edges, rest) && e in rest && e in edges
    requires edges[e].u == edges[e].v == l.u && FreshLoop(nodes, edges, nextId, l)
    requires l.x.Gen? && l.y.Gen? && l.z.Gen?
    ensures AboutToExpand(core, orig, nodes, edges, nextId, loops, rest, e, l)
  {
    hide Looped, LoopsAmong, FreshLoop;
  }

  lemma NotALoop(core: Edges, edges: Edges, rest: set<Id>, e: Id)
    requires LoopsAmong(core, edges, rest) && e in edges && edges[e].u != edges[e].v
    ensures LoopsAmong(core, edges, rest - {e})
  {
  }

  lemma AllExpanded(core: Edges, edges: Edges, rest: set<Id>)
    requires LoopsAmong(core, edges, rest) && rest == {}
    ensures NoSelfLoops(edges)
  {
  }

  // ---------- reversing edges ----------

  /** A loop's edges lie on no cycle: nothing enters x and nothing leaves z. */
  lemma LoopOffCycles(nodes: Nodes, edges: Edges, l: Loop)
    requires LoopIn(nodes, edges, l)
    ensures !OnCycle(edges, l.xu) && !OnCycle(edges, l.xy) && !OnCycle(edges, l.uz) && !OnCycle(edges, l.yz)
  {
    assert l.u != l.x && l.u != l.z;
    forall v | v != l.x ensures !Leads(edges, v, l.x) {
      forall es ensures !Chain(edges, v, es, l.x) {
        if Chain(edges, v, es, l.x) {
          NothingEnters(edges, v, es, l.x);
        }
      }
    }
    forall v | v != l.z ensures !Leads(edges, l.z, v) {
    }
  }

  lemma {:induction false} NothingEnters(edges: Edges, u: Id, es: seq<Id>, v: Id)
    requires Chain(edges, u, es, v) && forall e :: e in edges ==> edges[e].v != v
    ensures u == v
    decreases |es|
  {
    if es != [] {
      NothingEnters(edges, edges[es[0]].v, es[1..], v);
    }
  }

  /** The original edges as they now stand. */
  ghost function Turned(core: Edges, edges: Edges): Edges {
    map e | e in core :: if e in edges then edges[e] else core[e]
  }

  /** Flipping edges that lie on cycles turns some original edges and nothing else. */
  lemma FlipsKeep(core: Edges, orig: set<Id>, nodes: Nodes, edges: Edges, nextId: nat, loops: set<Loop>, edges': Edges)
    requires Looped(core, orig, nodes, edges, nextId, loops) && SomeFlipped(edges, edges')
    requires forall e :: e in edges' && edges'[e] != edges[e] ==> OnCycle(edges, e)
    ensures Looped(Turned(core, edges'), orig, nodes, edges', nextId, loops)
    ensures SomeFlipped(core, Turned(core, edges'))
  {
    hide OnCycle, LoopIn, RecordedSomewhere;
    TurnedRepresents(core, orig, nodes, edges, edges');
    hide Represents;
    forall l | l in loops ensures LoopIn(nodes, edges', l) {
      LoopStays(nodes, edges, edges', l);
    }
  }

  lemma TurnedRepresents(core: Edges, orig: set<Id>, nodes: Nodes, edges: Edges, edges': Edges)
    requires Represents(core, orig, nodes, edges) && SomeFlipped(edges, edges') && NotThere(nodes, edges)
    ensures Represents(Turned(core, edges'), orig, nodes, edges') && SomeFlipped(core, Turned(core, edges'))
  {
    hide RecordedSomewhere;
    var core' := Turned(core, edges');
    forall e | e in edges ensures Direct(nodes, edges', e) <==> Direct(nodes, edges, e) {
    }
    forall e | e in core && e in edges ensures core[e] == edges[e] {
      assert Direct(nodes, edges, e);
    }
  }

  lemma LoopStays(nodes: Nodes, edges: Edges, edges': Edges, l: Loop)
    requires LoopIn(nodes, edges, l) && SomeFlipped(edges, edges')
    requires forall e :: e in edges' && edges'[e] != edges[e] ==> OnCycle(edges, e)
    ensures LoopIn(nodes, edges', l)
  {
    LoopOffCycles(nodes, edges, l);
    hide OnCycle;
    assert LoopEdges(edges', l);
    forall e | e in edges' && edges'[e] != edges[e]
      ensures edges[e].u != l.x && edges[e].u != l.y && edges[e].u != l.z && edges[e].v != l.x && edges[e].v != l.y && edges[e].v != l.z
    {
      assert e != l.xu && e != l.xy && e != l.uz && e != l.yz;
    }
  }
}
