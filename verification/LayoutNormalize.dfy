/** Splitting long edges with dummy nodes so that every edge spans one rank, and undoing it. */
module LayoutNormalizes {
  import opened Base
  import opened Digraphs
  import opened Acyclics
  import opened LayoutGraphs

  /** The value of the edges that normalization adds. */
  const SEGMENT := EdgeAttr(None, 0, false)

  /** How many ranks e spans. */
  ghost function Span(nodes: Nodes, edges: Edges, e: Id): int {
    if e in edges && edges[e].u in nodes && edges[e].v in nodes then nodes[edges[e].v].rank - nodes[edges[e].u].rank else 1
  }

  /** Every edge points to a later rank, and those outside `rest` to the very next one. */
  ghost predicate SpansOne(nodes: Nodes, edges: Edges, rest: set<Id>) {
    forall e :: e in edges ==> 1 <= Span(nodes, edges, e) && (e !in rest ==> Span(nodes, edges, e) == 1)
  }

  ghost predicate HasRank(nodes: Nodes, k: int) {
    exists n :: n in nodes && nodes[n].rank == k
  }

  /** Some node has rank k, or an edge passes over it. */
  ghost predicate Reached(nodes: Nodes, edges: Edges, k: int) {
    || HasRank(nodes, k)
    || exists e :: e in edges && edges[e].u in nodes && edges[e].v in nodes && nodes[edges[e].u].rank < k < nodes[edges[e].v].rank
  }

  /** Ranks begin with zero, and none is left out. */
  ghost predicate Filled(nodes: Nodes, edges: Edges) {
    forall n :: n in nodes ==> nodes[n].rank >= 0 && forall k: nat :: k <= nodes[n].rank ==> Reached(nodes, edges, k)
  }

  /** When no edge is long any more, there is a node of every rank. */
  lemma NoneLeftOut(nodes: Nodes, edges: Edges, n: Id, k: nat)
    requires Filled(nodes, edges) && SpansOne(nodes, edges, {}) && n in nodes && k <= nodes[n].rank
    ensures HasRank(nodes, k)
  {
    assert Reached(nodes, edges, k);
    assert forall e :: e in edges ==> Span(nodes, edges, e) == 1;
  }

  /** A node and an edge more. */
  lemma FilledMore(nodes: Nodes, edges: Edges, v: Id, a: NodeAttr, t: Id, f: Id, d: Edge<EdgeAttr>)
    requires Filled(nodes, edges) && v !in nodes && f !in edges && t in nodes && 0 <= a.rank < nodes[t].rank
    ensures Filled(nodes[v := a], edges[f := d])
  {
    var nodes', edges' := nodes[v := a], edges[f := d];
    forall k: nat | Reached(nodes, edges, k) ensures Reached(nodes', edges', k) {
      if HasRank(nodes, k) {
        var n :| n in nodes && nodes[n].rank == k;
        assert n in nodes' && nodes'[n].rank == k;
      } else {
        var e :| e in edges && edges[e].u in nodes && edges[e].v in nodes && nodes[edges[e].u].rank < k < nodes[edges[e].v].rank;
        assert e in edges' && edges'[e] == edges[e];
      }
    }
    forall n | n in nodes' ensures nodes'[n].rank >= 0 && forall k: nat :: k <= nodes'[n].rank ==> Reached(nodes', edges', k) {
      hide Reached;
      if n == v {
        assert nodes[t].rank >= 0;
      }
    }
  }

  /** The long edge goes: the nodes put in have the ranks that it passed over. */
  lemma FilledWithout(nodes: Nodes, edges: Edges, e: Id, f: Id, d: Edge<EdgeAttr>)
    requires Filled(nodes, edges) && f !in edges && e in edges && edges[e].u in nodes && edges[e].v in nodes
    requires forall k :: nodes[edges[e].u].rank < k < nodes[edges[e].v].rank ==> HasRank(nodes, k)
    ensures Filled(nodes, edges[f := d] - {e})
  {
    var edges' := edges[f := d] - {e};
    forall k: nat | Reached(nodes, edges, k) ensures Reached(nodes, edges', k) {
      if !HasRank(nodes, k) {
        var x :| x in edges && edges[x].u in nodes && edges[x].v in nodes && nodes[edges[x].u].rank < k < nodes[edges[x].v].rank;
        assert x in edges' && edges'[x] == edges[x];
      }
    }
    hide Reached;
  }

  /** The ranks passed over so far, from lo on. */
  ghost predicate Stacked(nodes: Nodes, lo: int, hi: int) {
    forall k :: lo < k < hi ==> HasRank(nodes, k)
  }

  lemma StackedMore(nodes: Nodes, lo: int, hi: int, v: Id, a: NodeAttr)
    requires Stacked(nodes, lo, hi) && v !in nodes && a.rank == hi
    ensures Stacked(nodes[v := a], lo, hi + 1)
  {
    var nodes' := nodes[v := a];
    forall k | lo < k < hi + 1 ensures HasRank(nodes', k) {
      if k < hi {
        assert HasRank(nodes, k);
        var n :| n in nodes && nodes[n].rank == k;
        assert n in nodes' && nodes'[n].rank == k;
      } else {
        assert v in nodes' && nodes'[v].rank == k;
      }
    }
  }

  lemma NothingStacked(nodes: Nodes, lo: int)
    ensures Stacked(nodes, lo, lo + 1)
  {
  }

  lemma FilledSplit(nodes: Nodes, edges: Edges, e: Id, f: Id, d: Edge<EdgeAttr>, lo: int, hi: int)
    requires Filled(nodes, edges) && f !in edges && e in edges && edges[e].u in nodes && edges[e].v in nodes
    requires Stacked(nodes, lo, hi) && nodes[edges[e].u].rank == lo && nodes[edges[e].v].rank == hi
    ensures Filled(nodes, edges[f := d] - {e})
  {
    FilledWithout(nodes, edges, e, f, d);
  }

  /** The dummies named so far are numbered up to count. */
  ghost predicate Counted(nodes: Nodes, count: nat) {
    forall k: nat :: Dummy(k) in nodes ==> k <= count
  }

  ghost predicate Normalizing(core: Edges, orig: set<Id>, nodes: Nodes, edges: Edges, nextId: nat, count: nat, rest: set<Id>) {
    && Represents(core, orig, nodes, edges) && EndsIn(edges, nodes.Keys) && Issued(core, nextId) && Counted(nodes, count)
    && SpansOne(nodes, edges, rest) && rest <= edges.Keys && rest <= core.Keys
  }

  /** While e = (s, t) is being split: u is the last node of the chain so far, one rank before `rank`. */
  ghost predicate Splitting(core: Edges, orig: set<Id>, nodes: Nodes, edges: Edges, nextId: nat, count: nat, rest: set<Id>,
      e: Id, u: Id, rank: int, i: nat)
  {
    && Normalizing(core, orig, nodes, edges, nextId, count, rest) && e in rest && e in core && e in edges
    && u in nodes && nodes[u].rank == rank - 1 && core[e].v in nodes && rank <= nodes[core[e].v].rank
    && (i == 0 ==> u == core[e].u)
    && (i > 0 ==> !Plain(nodes, u) && RecordedSomewhere(nodes, e))
  }

  function SegmentDummy(e: Id, d: Edge<EdgeAttr>, rank: int, index: Option<nat>): NodeAttr {
    NodeAttr(Some(DummyOf(e, d.u, d.v, d.value, index)), rank)
  }

  lemma DummyRank(e: Id, d: Edge<EdgeAttr>, rank: int, index: Option<nat>)
    ensures var a := SegmentDummy(e, d, rank, index); a.rank == rank && a.edge.Some? && a.edge.value.id == e
  {
  }

  /** The first dummy is a control point, and so is the last if there is more than one. */
  function IndexOf(i: nat, rank: int, targetRank: int): Option<nat> {
    if i == 0 then Some(0) else if rank + 1 == targetRank then Some(1) else None
  }

  lemma SplitStarts(core: Edges, orig: set<Id>, nodes: Nodes, edges: Edges, nextId: nat, count: nat, rest: set<Id>, e: Id)
    requires Normalizing(core, orig, nodes, edges, nextId, count, rest) && e in rest
    ensures e in edges && e in core && edges[e] == core[e] && edges[e].u in nodes && edges[e].v in nodes
    ensures Span(nodes, edges, e) >= 1
    ensures Splitting(core, orig, nodes, edges, nextId, count, rest, e, edges[e].u, nodes[edges[e].u].rank + 1, 0)
  {
    hide RecordedSomewhere;
    assert Direct(nodes, edges, e);
  }

  /** One more dummy v and one more segment f = (u, v). */
  lemma SplitOn(core: Edges, orig: set<Id>, nodes: Nodes, edges: Edges, nextId: nat, count: nat, rest: set<Id>,
      e: Id, u: Id, rank: int, i: nat, f: nat)
    requires Splitting(core, orig, nodes, edges, nextId, count, rest, e, u, rank, i) && rank < nodes[core[e].v].rank
    requires f > nextId && Gen(f) !in edges
    ensures Dummy(count + 1) !in nodes
    ensures var v := Dummy(count + 1);
            var a := SegmentDummy(e, core[e], rank, IndexOf(i, rank, nodes[core[e].v].rank));
            Splitting(core, orig, nodes[v := a], edges[Gen(f) := Edge(u, v, SEGMENT)], f, count + 1, rest, e, v, rank + 1, i + 1)
  {
    hide *;
    SplitFacts(core, orig, nodes, edges, nextId, count, rest, e, u, rank, i);
    var v := Dummy(count + 1);
    var a := SegmentDummy(e, core[e], rank, IndexOf(i, rank, nodes[core[e].v].rank));
    NewDummy(core, orig, nodes, edges, count, e, v, a, rank, i, nodes[core[e].v].rank);
    NewSegment(core, orig, nodes[v := a], edges, nextId, Gen(f), u, v);
    SpansMore(core, nodes, edges, rest, v, a, Gen(f), u, rank);
    SplitAgain(core, orig, nodes, edges, nextId, count, rest, e, u, rank, i, f, v, a);
  }

  lemma SplitFacts(core: Edges, orig: set<Id>, nodes: Nodes, edges: Edges, nextId: nat, count: nat, rest: set<Id>,
      e: Id, u: Id, rank: int, i: nat)
    requires Splitting(core, orig, nodes, edges, nextId, count, rest, e, u, rank, i)
    ensures Represents(core, orig, nodes, edges) && EndsIn(edges, nodes.Keys) && Issued(core, nextId) && Counted(nodes, count)
    ensures SpansOne(nodes, edges, rest) && rest <= core.Keys && e in core && u in nodes && nodes[u].rank == rank - 1 && core[e].v in nodes
    ensures i > 0 ==> RecordedSomewhere(nodes, e)
  {
    hide Represents, EndsIn, Issued, Counted, SpansOne, RecordedSomewhere;
  }

  lemma NewDummy(core: Edges, orig: set<Id>, nodes: Nodes, edges: Edges, count: nat, e: Id, v: Id, a: NodeAttr, rank: int, i: nat, t: int)
    requires Represents(core, orig, nodes, edges) && EndsIn(edges, nodes.Keys) && Counted(nodes, count) && e in core
    requires v == Dummy(count + 1) && a == SegmentDummy(e, core[e], rank, IndexOf(i, rank, t))
    requires i > 0 ==> RecordedSomewhere(nodes, e)
    ensures v !in nodes && Represents(core, orig, nodes[v := a], edges) && EndsIn(edges, nodes[v := a].Keys) && Counted(nodes[v := a], count + 1)
    ensures !Plain(nodes[v := a], v) && RecordedSomewhere(nodes[v := a], e) && a.rank == rank
  {
    hide Represents, RecordedSomewhere;
    assert RecordOf(a.edge.value) == core[e];
    AddDummyKeeps(core, orig, nodes, edges, v, a);
  }

  lemma NewSegment(core: Edges, orig: set<Id>, nodes: Nodes, edges: Edges, nextId: nat, f: Id, u: Id, v: Id)
    requires Represents(core, orig, nodes, edges) && EndsIn(edges, nodes.Keys) && Issued(core, nextId)
    requires f.Gen? && f.n > nextId && u in nodes && v in nodes && (!Plain(nodes, u) || !Plain(nodes, v))
    ensures Represents(core, orig, nodes, edges[f := Edge(u, v, SEGMENT)]) && EndsIn(edges[f := Edge(u, v, SEGMENT)], nodes.Keys)
    ensures Issued(core, f.n) && f !in core
  {
    hide Represents, Plain;
    AddHelperKeeps(core, orig, nodes, edges, f, Edge(u, v, SEGMENT));
  }

  lemma SpansMore(core: Edges, nodes: Nodes, edges: Edges, rest: set<Id>, v: Id, a: NodeAttr, f: Id, u: Id, rank: int)
    requires SpansOne(nodes, edges, rest) && EndsIn(edges, nodes.Keys) && v !in nodes && f !in edges && u in nodes && nodes[u].rank == rank - 1 && a.rank == rank
    ensures SpansOne(nodes[v := a], edges[f := Edge(u, v, SEGMENT)], rest)
  {
    forall x | x in edges ensures Span(nodes[v := a], edges[f := Edge(u, v, SEGMENT)], x) == Span(nodes, edges, x) {
      assert edges[x].u in nodes && edges[x].v in nodes;
    }
  }

  lemma SplitAgain(core: Edges, orig: set<Id>, nodes: Nodes, edges: Edges, nextId: nat, count: nat, rest: set<Id>,
      e: Id, u: Id, rank: int, i: nat, f: nat, v: Id, a: NodeAttr)
    requires Splitting(core, orig, nodes, edges, nextId, count, rest, e, u, rank, i) && rank < nodes[core[e].v].rank
    requires v == Dummy(count + 1) && v !in nodes && a.rank == rank
    requires Represents(core, orig, nodes[v := a], edges[Gen(f) := Edge(u, v, SEGMENT)])
    requires EndsIn(edges[Gen(f) := Edge(u, v, SEGMENT)], nodes[v := a].Keys) && Issued(core, f) && Counted(nodes[v := a], count + 1)
    requires SpansOne(nodes[v := a], edges[Gen(f) := Edge(u, v, SEGMENT)], rest)
    requires !Plain(nodes[v := a], v) && RecordedSomewhere(nodes[v := a], e)
    ensures Splitting(core, orig, nodes[v := a], edges[Gen(f) := Edge(u, v, SEGMENT)], f, count + 1, rest, e, v, rank + 1, i + 1)
  {
    hide Represents, EndsIn, Issued, Counted, SpansOne, RecordedSomewhere, Plain;
  }

  /** The last segment, and the long edge goes. */
  lemma SplitEnds(core: Edges, orig: set<Id>, nodes: Nodes, edges: Edges, nextId: nat, count: nat, rest: set<Id>,
      e: Id, u: Id, rank: int, i: nat, f: nat)
    requires Splitting(core, orig, nodes, edges, nextId, count, rest, e, u, rank, i) && rank == nodes[core[e].v].rank && i > 0
    requires f > nextId && Gen(f) !in edges
    ensures Normalizing(core, orig, nodes, edges[Gen(f) := Edge(u, core[e].v, SEGMENT)] - {e}, f, count, rest - {e})
  {
    hide *;
    SplitFacts(core, orig, nodes, edges, nextId, count, rest, e, u, rank, i);
    LastIsDummy(core, orig, nodes, edges, nextId, count, rest, e, u, rank, i);
    NewSegment(core, orig, nodes, edges, nextId, Gen(f), u, core[e].v);
    DeleteKeeps(core, orig, nodes, edges[Gen(f) := Edge(u, core[e].v, SEGMENT)], e);
    SplitOver(core, orig, nodes, edges, nextId, count, rest, e, u, rank, i, f);
  }

  lemma LastIsDummy(core: Edges, orig: set<Id>, nodes: Nodes, edges: Edges, nextId: nat, count: nat, rest: set<Id>,
      e: Id, u: Id, rank: int, i: nat)
    requires Splitting(core, orig, nodes, edges, nextId, count, rest, e, u, rank, i) && i > 0
    ensures !Plain(nodes, u)
  {
    hide Normalizing, RecordedSomewhere;
  }

  lemma SplitOver(core: Edges, orig: set<Id>, nodes: Nodes, edges: Edges, nextId: nat, count: nat, rest: set<Id>,
      e: Id, u: Id, rank: int, i: nat, f: nat)
    requires Splitting(core, orig, nodes, edges, nextId, count, rest, e, u, rank, i) && rank == nodes[core[e].v].rank
    requires Gen(f) !in edges && Issued(core, f)
    requires Represents(core, orig, nodes, edges[Gen(f) := Edge(u, core[e].v, SEGMENT)] - {e})
    ensures Normalizing(core, orig, nodes, edges[Gen(f) := Edge(u, core[e].v, SEGMENT)] - {e}, f, count, rest - {e})
  {
    hide Represents, Issued, RecordedSomewhere, Plain, Counted;
  }

  // ---------- what becomes of the edges ----------

  ghost predicate Leads(edges: Edges, x: Id, y: Id) {
    exists f :: f in edges && edges[f].u == x && edges[f].v == y
  }

  /** n is the k-th of the dummies that normalization has put in for the edge d with the id e; it remembers the edge and, if it is the first or the
      last one, that it is a control point. */
  ghost predicate StandsFor(nodes0: Nodes, nodes: Nodes, n: Id, e: Id, d: Edge<EdgeAttr>, k: nat, last: nat) {
    && n in nodes && n !in nodes0
    && nodes[n].edge == Some(DummyOf(e, d.u, d.v, d.value, if k == 1 then Some(0) else if k == last then Some(1) else None))
  }

  /** p leads from one end of d to the other through its dummies. */
  ghost predicate Way(nodes0: Nodes, nodes: Nodes, edges: Edges, e: Id, d: Edge<EdgeAttr>, p: seq<Id>) {
    && |p| >= 3 && p[0] == d.u && p[|p| - 1] == d.v && (forall k :: 0 < k < |p| - 1 ==> StandsFor(nodes0, nodes, p[k], e, d, k, |p| - 2))
    && forall k :: 0 <= k < |p| - 1 ==> Leads(edges, p[k], p[k + 1])
  }

  ghost predicate HasWay(nodes0: Nodes, nodes: Nodes, edges: Edges, e: Id, d: Edge<EdgeAttr>) {
    exists p :: Way(nodes0, nodes, edges, e, d, p)
  }

  /** The edge e of the graph before is still there, or a chain of dummies has taken its place. */
  ghost predicate Carried(nodes0: Nodes, edges0: Edges, nodes: Nodes, edges: Edges, e: Id) {
    e in edges0 ==> (e in edges && edges[e] == edges0[e]) || HasWay(nodes0, nodes, edges, e, edges0[e])
  }

  ghost predicate Carrying(nodes0: Nodes, edges0: Edges, nodes: Nodes, edges: Edges) {
    && (forall n :: n in nodes0 ==> n in nodes && nodes[n] == nodes0[n])
    && forall e :: Carried(nodes0, edges0, nodes, edges, e)
  }

  lemma NothingCarried(nodes: Nodes, edges: Edges)
    ensures Carrying(nodes, edges, nodes, edges)
  {
    hide HasWay;
  }

  ghost predicate Grown(nodes: Nodes, edges: Edges, nodes': Nodes, edges': Edges) {
    && (forall n :: n in nodes ==> n in nodes' && nodes'[n] == nodes[n])
    && forall f :: f in edges ==> f in edges' && edges'[f] == edges[f]
  }

  lemma LeadsOn(edges: Edges, edges': Edges, x: Id, y: Id)
    requires Leads(edges, x, y) && forall f :: f in edges ==> f in edges' && edges'[f] == edges[f]
    ensures Leads(edges', x, y)
  {
    var f :| f in edges && edges[f].u == x && edges[f].v == y;
    assert f in edges' && edges'[f].u == x && edges'[f].v == y;
  }

  /** Putting in nodes and edges keeps what is carried. */
  lemma CarryingGrows(nodes0: Nodes, edges0: Edges, nodes: Nodes, edges: Edges, nodes': Nodes, edges': Edges)
    requires Carrying(nodes0, edges0, nodes, edges) && Grown(nodes, edges, nodes', edges')
    ensures Carrying(nodes0, edges0, nodes', edges')
  {
    hide HasWay;
    forall e ensures Carried(nodes0, edges0, nodes', edges', e) {
      assert Carried(nodes0, edges0, nodes, edges, e);
      if e in edges0 && HasWay(nodes0, nodes, edges, e, edges0[e]) {
        WayGrows(nodes0, nodes, edges, nodes', edges', e, edges0[e]);
      }
    }
  }

  lemma WayGrows(nodes0: Nodes, nodes: Nodes, edges: Edges, nodes': Nodes, edges': Edges, e: Id, d: Edge<EdgeAttr>)
    requires HasWay(nodes0, nodes, edges, e, d) && Grown(nodes, edges, nodes', edges')
    ensures HasWay(nodes0, nodes', edges', e, d)
  {
    hide Leads;
    var p :| Way(nodes0, nodes, edges, e, d, p);
    forall k | 0 <= k < |p| - 1 ensures Leads(edges', p[k], p[k + 1]) {
      LeadsOn(edges, edges', p[k], p[k + 1]);
    }
    assert Way(nodes0, nodes', edges', e, d, p);
  }

  /** The edge e goes, between two nodes from before: chains do not need it. */
  lemma CarryingWithout(nodes0: Nodes, edges0: Edges, nodes: Nodes, edges: Edges, e: Id)
    requires Carrying(nodes0, edges0, nodes, edges) && e in edges && edges[e].u in nodes0 && edges[e].v in nodes0
    requires e in edges0 && HasWay(nodes0, nodes, edges, e, edges0[e])
    ensures Carrying(nodes0, edges0, nodes, edges - {e})
  {
    hide HasWay;
    forall x ensures Carried(nodes0, edges0, nodes, edges - {e}, x) {
      assert Carried(nodes0, edges0, nodes, edges, x);
      if x in edges0 && HasWay(nodes0, nodes, edges, x, edges0[x]) {
        WayWithout(nodes0, nodes, edges, e, x, edges0[x]);
      }
    }
  }

  lemma WayWithout(nodes0: Nodes, nodes: Nodes, edges: Edges, e: Id, x: Id, d: Edge<EdgeAttr>)
    requires HasWay(nodes0, nodes, edges, x, d) && e in edges && edges[e].u in nodes0 && edges[e].v in nodes0
    ensures HasWay(nodes0, nodes, edges - {e}, x, d)
  {
    hide Leads;
    var p :| Way(nodes0, nodes, edges, x, d, p);
    forall k | 0 <= k < |p| - 1 ensures Leads(edges - {e}, p[k], p[k + 1]) {
      assert k > 0 ==> StandsFor(nodes0, nodes, p[k], x, d, k, |p| - 2);
      assert k + 1 < |p| - 1 ==> StandsFor(nodes0, nodes, p[k + 1], x, d, k + 1, |p| - 2);
      LeadsWithout(nodes0, edges, e, p[k], p[k + 1]);
    }
    assert Way(nodes0, nodes, edges - {e}, x, d, p);
  }

  lemma LeadsWithout(nodes0: Nodes, edges: Edges, e: Id, x: Id, y: Id)
    requires Leads(edges, x, y) && (x !in nodes0 || y !in nodes0) && e in edges && edges[e].u in nodes0 && edges[e].v in nodes0
    ensures Leads(edges - {e}, x, y)
  {
    var f :| f in edges && edges[f].u == x && edges[f].v == y;
    assert f in edges - {e} && (edges - {e})[f] == edges[f];
  }

  /** The chain for d so far: to u, through the first i of its dummies, the last of which is u. */
  ghost predicate Chain(nodes0: Nodes, nodes: Nodes, edges: Edges, e: Id, d: Edge<EdgeAttr>, u: Id, p: seq<Id>, i: nat, last: nat) {
    && |p| == i + 1 && p[0] == d.u && p[i] == u && (forall k :: 0 < k <= i ==> StandsFor(nodes0, nodes, p[k], e, d, k, last))
    && forall k :: 0 <= k < i ==> Leads(edges, p[k], p[k + 1])
  }

  lemma ChainStarts(nodes0: Nodes, nodes: Nodes, edges: Edges, e: Id, d: Edge<EdgeAttr>, last: nat)
    ensures Chain(nodes0, nodes, edges, e, d, d.u, [d.u], 0, last)
  {
  }

  /** One more dummy v, and a segment to it. */
  lemma ChainMore(nodes0: Nodes, nodes: Nodes, edges: Edges, nodes': Nodes, edges': Edges, e: Id, d: Edge<EdgeAttr>, u: Id, p: seq<Id>, i: nat,
                  last: nat, v: Id)
    requires Chain(nodes0, nodes, edges, e, d, u, p, i, last) && Grown(nodes, edges, nodes', edges')
    requires StandsFor(nodes0, nodes', v, e, d, i + 1, last) && Leads(edges', u, v)
    ensures Chain(nodes0, nodes', edges', e, d, v, p + [v], i + 1, last)
  {
    hide Leads;
    var q := p + [v];
    forall k | 0 < k <= i + 1 ensures StandsFor(nodes0, nodes', q[k], e, d, k, last) {
      assert k <= i ==> q[k] == p[k] && StandsFor(nodes0, nodes, p[k], e, d, k, last);
    }
    forall k | 0 <= k < i + 1 ensures Leads(edges', q[k], q[k + 1]) {
      if k < i {
        assert q[k] == p[k] && q[k + 1] == p[k + 1];
        LeadsOn(edges, edges', p[k], p[k + 1]);
      }
    }
  }

  /** The last segment. */
  lemma ChainEnds(nodes0: Nodes, nodes: Nodes, edges: Edges, edges': Edges, e: Id, d: Edge<EdgeAttr>, u: Id, p: seq<Id>, i: nat)
    requires Chain(nodes0, nodes, edges, e, d, u, p, i, i) && Grown(nodes, edges, nodes, edges') && Leads(edges', u, d.v) && i > 0
    ensures HasWay(nodes0, nodes, edges', e, d)
  {
    hide Leads;
    var q := p + [d.v];
    forall k | 0 < k < |q| - 1 ensures StandsFor(nodes0, nodes, q[k], e, d, k, |q| - 2) {
      assert q[k] == p[k];
    }
    forall k | 0 <= k < |q| - 1 ensures Leads(edges', q[k], q[k + 1]) {
      if k < i {
        assert q[k] == p[k] && q[k + 1] == p[k + 1];
        LeadsOn(edges, edges', p[k], p[k + 1]);
      }
    }
    assert Way(nodes0, nodes, edges', e, d, q);
  }

  lemma LeadsNow(edges: Edges, f: Id, x: Id, y: Id)
    ensures Leads(edges[f := Edge(x, y, SEGMENT)], x, y)
  {
    assert f in edges[f := Edge(x, y, SEGMENT)];
  }

  lemma GrownBy(nodes: Nodes, edges: Edges, f: Id, d: Edge<EdgeAttr>)
    requires f !in edges
    ensures Grown(nodes, edges, nodes, edges[f := d])
  {
  }

  method SplitEdge(g: Digraph<NodeAttr, EdgeAttr>, ghost core: Edges, ghost orig: set<Id>, ghost rest: set<Id>, e: Id, dummyCount0: nat,
                   ghost nodes0: Nodes, ghost edges0: Edges)
    returns (dummyCount: nat)
    requires g.Valid() && Normalizing(core, orig, g.nodes, g.edges, g.nextId, dummyCount0, rest) && e in rest
    requires e in g.edges && Span(g.nodes, g.edges, e) > 1 && Filled(g.nodes, g.edges)
    requires Carrying(nodes0, edges0, g.nodes, g.edges) && EndsIn(edges0, nodes0.Keys) && e in edges0 && g.edges[e] == edges0[e]
    modifies g
    ensures g.Valid() && Normalizing(core, orig, g.nodes, g.edges, g.nextId, dummyCount, rest - {e}) && Filled(g.nodes, g.edges)
    ensures forall f :: f in old(g.edges) && f != e ==> f in g.edges && g.edges[f] == old(g.edges)[f]
    ensures Carrying(nodes0, edges0, g.nodes, g.edges)
  {
    hide *;
    SplitStarts(core, orig, g.nodes, g.edges, g.nextId, dummyCount0, rest, e);
    SpanIs(g.nodes, g.edges, e);
    dummyCount := dummyCount0;
    var d := g.edges[e];
    var s, t := d.u, d.v;
    var targetRank := g.nodes[t].rank;
    var u, rank, i := s, g.nodes[s].rank + 1, 0;
    ghost var lo := g.nodes[s].rank;
    NothingStacked(g.nodes, lo);
    RankNotNegative(g.nodes, g.edges, s);
    ghost var p, last: nat := [s], targetRank - lo - 1;
    ChainStarts(nodes0, g.nodes, g.edges, e, d, last);
    while rank < targetRank
      invariant g.Valid() && t in g.nodes && g.nodes[t].rank == targetRank && 0 <= rank <= targetRank
      invariant Filled(g.nodes, g.edges) && Stacked(g.nodes, lo, rank) && e in g.edges && g.edges[e] == d && s in g.nodes && g.nodes[s].rank == lo
      invariant Splitting(core, orig, g.nodes, g.edges, g.nextId, dummyCount, rest, e, u, rank, i)
      invariant rank == lo + 1 + i && last == targetRank - lo - 1 > 0
      invariant forall f :: f in old(g.edges) ==> f in g.edges && g.edges[f] == old(g.edges)[f]
      invariant Carrying(nodes0, edges0, g.nodes, g.edges) && Chain(nodes0, g.nodes, g.edges, e, d, u, p, i, last)
      decreases targetRank - rank
    {
      ghost var nodes1, edges1, u1 := g.nodes, g.edges, u;
      u := AddSegment(g, core, orig, rest, e, d, targetRank, u, rank, i, dummyCount);
      StackedMore(nodes1, lo, rank, u, g.nodes[u]);
      CarryingGrows(nodes0, edges0, nodes1, edges1, g.nodes, g.edges);
      StandsNow(nodes0, edges0, nodes1, edges1, g.nodes, u, e, d, i, rank, targetRank, last);
      ChainMore(nodes0, nodes1, edges1, g.nodes, g.edges, e, d, u1, p, i, last, u);
      p := p + [u];
      dummyCount, rank, i := dummyCount + 1, rank + 1, i + 1;
    }
    InGraph(core, orig, g.nodes, g.edges, g.nextId, dummyCount, rest, e, u, rank, i);
    ghost var edges, nextId := g.edges, g.nextId;
    var f := g.AddEdge(None, u, t, SEGMENT);
    SplitEnds(core, orig, g.nodes, edges, nextId, dummyCount, rest, e, u, rank, i, g.nextId);
    FilledSplit(g.nodes, edges, e, f.value, Edge(u, t, SEGMENT), lo, rank);
    GrownBy(g.nodes, edges, f.value, Edge(u, t, SEGMENT));
    LeadsNow(edges, f.value, u, t);
    CarryingGrows(nodes0, edges0, g.nodes, edges, g.nodes, g.edges);
    ChainEnds(nodes0, g.nodes, edges, g.edges, e, d, u, p, i);
    EndsAt(edges0, nodes0.Keys, e);
    CarryingWithout(nodes0, edges0, g.nodes, g.edges, e);
    var _ := g.DelEdge(e);
  }

  /** A node just put in for e was not there before. */
  lemma StandsNow(nodes0: Nodes, edges0: Edges, nodes: Nodes, edges: Edges, nodes': Nodes, v: Id, e: Id, d: Edge<EdgeAttr>, i: nat, rank: int,
                  targetRank: int, last: nat)
    requires Carrying(nodes0, edges0, nodes, edges) && v !in nodes && v in nodes' && targetRank - rank == last - i
    requires nodes'[v] == SegmentDummy(e, d, rank, IndexOf(i, rank, targetRank))
    ensures StandsFor(nodes0, nodes', v, e, d, i + 1, last)
  {
    hide Carried;
  }

  lemma RankNotNegative(nodes: Nodes, edges: Edges, s: Id)
    requires Filled(nodes, edges) && s in nodes
    ensures nodes[s].rank >= 0
  {
  }

  lemma SpanIs(nodes: Nodes, edges: Edges, e: Id)
    requires e in edges && edges[e].u in nodes && edges[e].v in nodes
    ensures Span(nodes, edges, e) == nodes[edges[e].v].rank - nodes[edges[e].u].rank
  {
  }

  lemma InGraph(core: Edges, orig: set<Id>, nodes: Nodes, edges: Edges, nextId: nat, count: nat, rest: set<Id>,
      e: Id, u: Id, rank: int, i: nat)
    requires Splitting(core, orig, nodes, edges, nextId, count, rest, e, u, rank, i)
    ensures u in nodes && e in edges && e in core && nodes[u].rank == rank - 1 && core[e].v in nodes
  {
    hide Normalizing, RecordedSomewhere, Plain;
  }

  /** One round of the loop that inserts dummies. */
  method AddSegment(g: Digraph<NodeAttr, EdgeAttr>, ghost core: Edges, ghost orig: set<Id>, ghost rest: set<Id>, e: Id, d: Edge<EdgeAttr>,
      targetRank: int, u: Id, rank: int, i: nat, dummyCount: nat)
    returns (v: Id)
    requires g.Valid() && Splitting(core, orig, g.nodes, g.edges, g.nextId, dummyCount, rest, e, u, rank, i)
    requires e in core && d == core[e] && d.v in g.nodes && g.nodes[d.v].rank == targetRank && 0 <= rank < targetRank
    requires Filled(g.nodes, g.edges)
    modifies g
    ensures g.Valid() && Splitting(core, orig, g.nodes, g.edges, g.nextId, dummyCount + 1, rest, e, v, rank + 1, i + 1)
    ensures d.v in g.nodes && g.nodes[d.v].rank == targetRank
    ensures forall f :: f in old(g.edges) ==> f in g.edges && g.edges[f] == old(g.edges)[f]
    ensures v !in old(g.nodes) && v in g.nodes && g.nodes == old(g.nodes)[v := g.nodes[v]] && g.nodes[v].rank == rank
    ensures g.nodes[v] == SegmentDummy(e, d, rank, IndexOf(i, rank, targetRank))
    ensures Grown(old(g.nodes), old(g.edges), g.nodes, g.edges) && Leads(g.edges, u, v)
    ensures Filled(g.nodes, g.edges)
  {
    hide *;
    InGraph(core, orig, g.nodes, g.edges, g.nextId, dummyCount, rest, e, u, rank, i);
    ghost var nodes, edges, nextId := g.nodes, g.edges, g.nextId;
    v := Dummy(dummyCount + 1);
    NewName(core, orig, nodes, edges, nextId, dummyCount, rest, e, u, rank, i);
    var _ := g.AddNode(Some(v), SegmentDummy(e, d, rank, IndexOf(i, rank, targetRank)));
    var f := g.AddEdge(None, u, v, SEGMENT);
    SplitOn(core, orig, nodes, edges, nextId, dummyCount, rest, e, u, rank, i, g.nextId);
    DummyRank(e, d, rank, IndexOf(i, rank, targetRank));
    FilledMore(nodes, edges, v, g.nodes[v], d.v, f.value, Edge(u, v, SEGMENT));
    LeadsNow(edges, f.value, u, v);
    GrownBoth(nodes, edges, v, g.nodes[v], f.value, Edge(u, v, SEGMENT));
  }

  lemma GrownBoth(nodes: Nodes, edges: Edges, v: Id, a: NodeAttr, f: Id, d: Edge<EdgeAttr>)
    requires v !in nodes && f !in edges
    ensures Grown(nodes, edges, nodes[v := a], edges[f := d])
  {
  }

  lemma NewName(core: Edges, orig: set<Id>, nodes: Nodes, edges: Edges, nextId: nat, count: nat, rest: set<Id>,
      e: Id, u: Id, rank: int, i: nat)
    requires Splitting(core, orig, nodes, edges, nextId, count, rest, e, u, rank, i)
    ensures Dummy(count + 1) !in nodes
  {
    hide Represents, EndsIn, SpansOne, RecordedSomewhere, Plain;
  }

  /** Makes every edge span one rank, keeping what the graph represents. */
  method Normalize(g: Digraph<NodeAttr, EdgeAttr>, ghost core: Edges, ghost orig: set<Id>)
    requires g.Valid() && Normalizing(core, orig, g.nodes, g.edges, g.nextId, 0, g.edges.Keys * core.Keys) && Filled(g.nodes, g.edges)
    modifies g
    ensures g.Valid() && Represents(core, orig, g.nodes, g.edges) && Issued(core, g.nextId)
    ensures SpansOne(g.nodes, g.edges, {}) && Filled(g.nodes, g.edges)
    ensures Carrying(old(g.nodes), old(g.edges), g.nodes, g.edges)
  {
    g.Ends();
    hide *;
    var dummyCount := 0;
    ghost var rest := g.edges.Keys * core.Keys;
    var es := Listing(g.edges.Keys);
    ghost var nodes0, edges0 := g.nodes, g.edges;
    NothingCarried(nodes0, edges0);
    UptoEnds(es, edges0.Keys);
    for i := 0 to |es|
      invariant g.Valid() && Normalizing(core, orig, g.nodes, g.edges, g.nextId, dummyCount, rest) && Filled(g.nodes, g.edges)
      invariant rest <= edges0.Keys - Upto(es, i)
      invariant forall j :: i <= j < |es| ==> es[j] in g.edges && es[j] in edges0 && g.edges[es[j]] == edges0[es[j]]
      invariant Carrying(nodes0, edges0, g.nodes, g.edges)
    {
      UptoStep(es, edges0.Keys, i);
      LaterDiffer(es, edges0.Keys, i);
      var e := es[i];
      Considered(core, orig, g.nodes, g.edges, g.nextId, dummyCount, rest, e);
      var d := g.edges[e];
      if g.nodes[d.u].rank + 1 < g.nodes[d.v].rank {
        dummyCount := SplitEdge(g, core, orig, rest, e, dummyCount, nodes0, edges0);
      }
      rest := rest - {e};
    }
    Normalized(core, orig, g.nodes, g.edges, g.nextId, dummyCount, rest);
  }

  lemma Considered(core: Edges, orig: set<Id>, nodes: Nodes, edges: Edges, nextId: nat, count: nat, rest: set<Id>, e: Id)
    requires Normalizing(core, orig, nodes, edges, nextId, count, rest) && e in edges
    ensures edges[e].u in nodes && edges[e].v in nodes
    ensures Span(nodes, edges, e) == nodes[edges[e].v].rank - nodes[edges[e].u].rank
    ensures Span(nodes, edges, e) > 1 ==> e in rest
    ensures Span(nodes, edges, e) <= 1 ==> Normalizing(core, orig, nodes, edges, nextId, count, rest - {e})
  {
    hide Represents, Issued, Counted;
  }

  lemma Normalized(core: Edges, orig: set<Id>, nodes: Nodes, edges: Edges, nextId: nat, count: nat, rest: set<Id>)
    requires Normalizing(core, orig, nodes, edges, nextId, count, rest) && rest == {}
    ensures Represents(core, orig, nodes, edges) && Issued(core, nextId) && SpansOne(nodes, edges, {})
  {
    hide Represents, Issued, Counted, EndsIn;
  }

  // ---------- undoing it ----------

  /** The nodes still to be looked at include every dummy. */
  ghost predicate Undoing(core: Edges, orig: set<Id>, nodes: Nodes, edges: Edges, rest: set<Id>) {
    && Represents(core, orig, nodes, edges) && EndsIn(edges, nodes.Keys)
    && rest <= nodes.Keys && forall n :: n in nodes && n !in rest ==> Plain(nodes, n)
  }

  /** Putting a recorded edge back. */
  lemma RestoreKeeps(core: Edges, orig: set<Id>, nodes: Nodes, edges: Edges, rest: set<Id>, n: Id)
    requires Undoing(core, orig, nodes, edges, rest) && Recorded(nodes, n)
    ensures var d := nodes[n].edge.value;
            && d.source in nodes && d.target in nodes
            && (d.id !in edges ==> Undoing(core, orig, nodes, edges[d.id := RecordOf(d)], rest))
  {
    hide RecordedSomewhere;
    var d := nodes[n].edge.value;
    assert d.id in core && core[d.id] == RecordOf(d);
    assert Plain(nodes, d.source) && Plain(nodes, d.target);
    if d.id !in edges {
      var edges' := edges[d.id := RecordOf(d)];
      forall e | e in edges ensures Direct(nodes, edges', e) <==> Direct(nodes, edges, e) {
      }
      assert Direct(nodes, edges', d.id);
    }
  }

  ghost function WithoutNode(edges: Edges, n: Id): Edges {
    map e | e in edges && edges[e].u != n && edges[e].v != n :: edges[e]
  }

  /** Deleting a dummy whose edge is back. */
  lemma DropKeeps(core: Edges, orig: set<Id>, nodes: Nodes, edges: Edges, rest: set<Id>, n: Id)
    requires Undoing(core, orig, nodes, edges, rest) && n in rest && !Plain(nodes, n)
    requires Recorded(nodes, n) ==> nodes[n].edge.value.id in edges
    ensures Undoing(core, orig, nodes - {n}, WithoutNode(edges, n), rest - {n})
  {
    hide *;
    DropRepresents(core, orig, nodes, edges, rest, n);
    DropRest(core, orig, nodes, edges, rest, n);
  }

  lemma DropRest(core: Edges, orig: set<Id>, nodes: Nodes, edges: Edges, rest: set<Id>, n: Id)
    requires Undoing(core, orig, nodes, edges, rest) && n in rest
    requires Represents(core, orig, nodes - {n}, WithoutNode(edges, n))
    ensures Undoing(core, orig, nodes - {n}, WithoutNode(edges, n), rest - {n})
  {
    hide Represents;
  }

  lemma DropRepresents(core: Edges, orig: set<Id>, nodes: Nodes, edges: Edges, rest: set<Id>, n: Id)
    requires Undoing(core, orig, nodes, edges, rest) && n in rest && !Plain(nodes, n)
    requires Recorded(nodes, n) ==> nodes[n].edge.value.id in edges
    ensures Represents(core, orig, nodes - {n}, WithoutNode(edges, n))
  {
    var nodes', edges' := nodes - {n}, WithoutNode(edges, n);
    forall e ensures Direct(nodes', edges', e) <==> Direct(nodes, edges, e) {
    }
    forall e | e in core && e !in edges' ensures RecordedSomewhere(nodes', e) {
      var m :| Recorded(nodes, m) && nodes[m].edge.value.id == e;
      assert Recorded(nodes', m);
    }
  }

  /** Without dummies the graph is the original one. */
  lemma Undone(core: Edges, orig: set<Id>, nodes: Nodes, edges: Edges, rest: set<Id>)
    requires Undoing(core, orig, nodes, edges, rest) && rest == {}
    ensures nodes.Keys == orig && edges == core
  {
    forall e | e in edges ensures e in core && core[e] == edges[e] {
      assert Direct(nodes, edges, e);
    }
    forall e | e in core ensures e in edges {
    }
  }

  /** Removes every dummy and puts the original edges back. */
  method UndoNormalize(g: Digraph<NodeAttr, EdgeAttr>, ghost core: Edges, ghost orig: set<Id>)
    requires g.Valid() && Represents(core, orig, g.nodes, g.edges)
    modifies g
    ensures g.Valid() && g.nodes.Keys == orig && g.edges == core
  {
    g.Ends();
    hide *;
    var us := Listing(g.nodes.Keys);
    ghost var all := g.nodes.Keys;
    UptoEnds(us, all);
    assert all - Upto(us, 0) == all;
    AllToUndo(core, orig, g.nodes, g.edges);
    for i := 0 to |us|
      invariant g.Valid() && Undoing(core, orig, g.nodes, g.edges, all - Upto(us, i))
    {
      UptoStep(us, all, i);
      var u := us[i];
      assert all - Upto(us, i + 1) == all - Upto(us, i) - {u};
      UndoNode(g, core, orig, all - Upto(us, i), u);
    }
    Undone(core, orig, g.nodes, g.edges, all - Upto(us, |us|));
  }

  /** One round of the loop: a dummy goes, after its edge is back. */
  method UndoNode(g: Digraph<NodeAttr, EdgeAttr>, ghost core: Edges, ghost orig: set<Id>, ghost rest: set<Id>, u: Id)
    requires g.Valid() && Undoing(core, orig, g.nodes, g.edges, rest) && u in rest
    modifies g
    ensures g.Valid() && Undoing(core, orig, g.nodes, g.edges, rest - {u})
  {
    hide *;
    ToUndo(core, orig, g.nodes, g.edges, rest, u);
    var a := g.nodes[u];
    if a.edge.Some? {
      var edge := a.edge.value;
      if edge.index.Some? {
        RestoreKeeps(core, orig, g.nodes, g.edges, rest, u);
        if edge.id !in g.edges {
          var _ := g.AddEdge(Some(edge.id), edge.source, edge.target, edge.attrs);
          SameRecord(edge);
        }
      }
      DropKeeps(core, orig, g.nodes, g.edges, rest, u);
      ghost var edges := g.edges;
      var _ := g.DelNode(u);
      SameEdges(edges, u);
    }
  }

  lemma SameRecord(d: DummyOf)
    ensures RecordOf(d) == Edge(d.source, d.target, d.attrs)
  {
  }

  lemma SameEdges(edges: Edges, n: Id)
    ensures WithoutNode(edges, n) == map e | e in edges && edges[e].u != n && edges[e].v != n :: edges[e]
  {
  }

  lemma AllToUndo(core: Edges, orig: set<Id>, nodes: Nodes, edges: Edges)
    requires Represents(core, orig, nodes, edges) && EndsIn(edges, nodes.Keys)
    ensures Undoing(core, orig, nodes, edges, nodes.Keys)
  {
    hide Represents, EndsIn;
  }

  lemma ToUndo(core: Edges, orig: set<Id>, nodes: Nodes, edges: Edges, rest: set<Id>, u: Id)
    requires Undoing(core, orig, nodes, edges, rest) && u in rest
    ensures u in nodes
    ensures nodes[u].edge.None? ==> Undoing(core, orig, nodes, edges, rest - {u})
    ensures nodes[u].edge.Some? ==> !Plain(nodes, u) && (nodes[u].edge.value.index.Some? <==> Recorded(nodes, u))
  {
    hide Represents, EndsIn;
  }
}
