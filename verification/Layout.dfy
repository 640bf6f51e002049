/** The whole layout run: every structural change is undone, so the graph that comes out has the
    nodes and edges that went in. */
module Layouts {
  import opened Base
  import opened Digraphs
  import opened Acyclics
  import opened TopSorts
  import opened TightTrees
  import opened LayoutGraphs
  import opened LayoutRanks
  import opened LayoutNormalizes
  import opened LayoutDraws
  import Coordinates

  datatype InputEdge = InputEdge(u: Id, v: Id, minLen: nat)

  datatype InputGraph = InputGraph(nodes: set<Id>, edges: map<Id, InputEdge>) {
    ghost predicate Valid() {
      forall e :: e in edges ==> edges[e].u in nodes && edges[e].v in nodes
    }

    /** No node is called like one of the dummies that normalization will add. */
    ghost predicate NoDummyNames() {
      forall u :: u in nodes ==> !u.Dummy?
    }
  }

  /** e is the working copy of the input edge it names: the minimum length is one if none is given, and then doubled, if that has been done. */
  ghost predicate Copies(input: InputGraph, edges: Edges, e: Id, doubled: bool) {
    && e in edges && edges[e].value.e.Some? && edges[e].value.e.value in input.edges
    && edges[e].u == input.edges[edges[e].value.e.value].u && edges[e].v == input.edges[edges[e].value.e.value].v
    && !edges[e].value.reversed && IsLength(input.edges[edges[e].value.e.value], doubled, edges[e].value.minLen)
  }

  ghost predicate IsLength(d: InputEdge, doubled: bool, m: int) {
    m == (if doubled then 2 else 1) * if d.minLen == 0 then 1 else d.minLen
  }

  /** The working edges copy the input edges in `done`, one each; those in `doubled` have their length doubled. */
  ghost predicate CopyOf(input: InputGraph, edges: Edges, done: set<Id>, doubled: set<Id>) {
    && (forall e :: e in edges ==> Copies(input, edges, e, e in doubled) && edges[e].value.e.value in done)
    && (forall e, f :: e in edges && f in edges && edges[e].value.e == edges[f].value.e ==> e == f)
    && (forall o :: o in done ==> exists e :: e in edges && edges[e].value.e == Some(o))
  }

  // ---------- building the working graph ----------

  method InitLayoutGraph(input: InputGraph) returns (g: Digraph<NodeAttr, EdgeAttr>)
    requires input.Valid()
    ensures fresh(g) && g.Valid() && CopyOf(input, g.edges, input.edges.Keys, {}) && Issued(g.edges, g.nextId)
    ensures g.nodes == map u | u in input.nodes :: NodeAttr(None, 0)
  {
    g := new Digraph<NodeAttr, EdgeAttr>();
    hide Digraph.Valid, CopyOf;
    var us := Listing(input.nodes);
    UptoEnds(us, input.nodes);
    for i := 0 to |us|
      invariant fresh(g) && g.Valid() && g.edges == map[] && g.nextId == 0
      invariant g.nodes.Keys == Upto(us, i) && forall u :: u in g.nodes ==> g.nodes[u] == NodeAttr(None, 0)
    {
      UptoStep(us, input.nodes, i);
      var _ := g.AddNode(Some(us[i]), NodeAttr(None, 0));
    }
    AddInputEdges(g, input);
  }

  method AddInputEdges(g: Digraph<NodeAttr, EdgeAttr>, input: InputGraph)
    requires g.Valid() && input.Valid() && g.nodes.Keys == input.nodes && g.edges == map[]
    modifies g
    ensures g.Valid() && CopyOf(input, g.edges, input.edges.Keys, {}) && Issued(g.edges, g.nextId) && g.nodes == old(g.nodes)
  {
    hide *;
    NoCopies(input);
    NoneIssued(g.edges, g.nextId);
    var es := Listing(input.edges.Keys);
    UptoEnds(es, input.edges.Keys);
    for i := 0 to |es|
      invariant g.Valid() && g.nodes == old(g.nodes) && CopyOf(input, g.edges, Upto(es, i), {}) && Issued(g.edges, g.nextId)
    {
      UptoStep(es, input.edges.Keys, i);
      InputEnds(input, es[i]);
      var d := input.edges[es[i]];
      var value := EdgeAttr(Some(es[i]), if d.minLen == 0 then 1 else d.minLen, false);
      LengthMade(d, value.minLen);
      ghost var before, nextId := g.edges, g.nextId;
      var e := g.AddEdge(None, d.u, d.v, value);
      OneMoreIssued(before, nextId, g.nextId, Edge(d.u, d.v, value));
      OneMoreCopy(input, before, Upto(es, i), es[i], e.value, Edge(d.u, d.v, value));
    }
  }

  lemma LengthMade(d: InputEdge, m: int)
    requires m == if d.minLen == 0 then 1 else d.minLen
    ensures IsLength(d, false, m)
  {
  }

  lemma InputEnds(input: InputGraph, e: Id)
    requires input.Valid() && e in input.edges
    ensures input.edges[e].u in input.nodes && input.edges[e].v in input.nodes
  {
  }

  lemma NoneIssued(edges: Edges, nextId: nat)
    requires edges == map[]
    ensures Issued(edges, nextId)
  {
  }

  lemma OneMoreIssued(edges: Edges, nextId: nat, nextId': nat, d: Edge<EdgeAttr>)
    requires Issued(edges, nextId) && nextId <= nextId'
    ensures Issued(edges[Gen(nextId') := d], nextId')
  {
  }

  lemma NoCopies(input: InputGraph)
    ensures CopyOf(input, map[], {}, {})
  {
  }

  lemma OneMoreCopy(input: InputGraph, edges: Edges, done: set<Id>, o: Id, e: Id, d: Edge<EdgeAttr>)
    requires CopyOf(input, edges, done, {}) && o in input.edges && o !in done && e !in edges
    requires d.value.e == Some(o) && d.u == input.edges[o].u && d.v == input.edges[o].v && !d.value.reversed
    requires IsLength(input.edges[o], false, d.value.minLen)
    ensures CopyOf(input, edges[e := d], done + {o}, {})
  {
    hide IsLength;
    var edges' := edges[e := d];
    forall f | f in edges' ensures Copies(input, edges', f, false) && edges'[f].value.e.value in done + {o} {
      if f != e {
        assert Copies(input, edges, f, false);
      }
    }
    forall p | p in done + {o} ensures exists f :: f in edges' && edges'[f].value.e == Some(p) {
      if p == o {
        assert edges'[e].value.e == Some(o);
      } else {
        var f :| f in edges && edges[f].value.e == Some(p);
        assert edges'[f].value.e == Some(p);
      }
    }
  }

  /** Makes space for edge labels: every minimum length is doubled. */
  method DoubleMinLen(g: Digraph<NodeAttr, EdgeAttr>, ghost input: InputGraph)
    requires g.Valid() && CopyOf(input, g.edges, input.edges.Keys, {}) && Issued(g.edges, g.nextId)
    modifies g
    ensures g.Valid() && CopyOf(input, g.edges, input.edges.Keys, g.edges.Keys) && Issued(g.edges, g.nextId)
    ensures g.nodes == old(g.nodes) && g.nextId == old(g.nextId)
  {
    hide *;
    var es := Listing(g.edges.Keys);
    ghost var keys := g.edges.Keys;
    UptoEnds(es, keys);
    for i := 0 to |es|
      invariant g.Valid() && CopyOf(input, g.edges, input.edges.Keys, Upto(es, i)) && g.edges.Keys == keys
      invariant g.nodes == old(g.nodes) && g.nextId == old(g.nextId)
    {
      UptoStep(es, keys, i);
      var a := g.edges[es[i]].value;
      OneMoreDoubled(input, g.edges, Upto(es, i), es[i], a.minLen * 2);
      g.SetEdge(es[i], a.(minLen := a.minLen * 2));
    }
    SameIssued(old(g.edges), g.edges, g.nextId);
  }

  lemma SameIssued(a: Edges, b: Edges, nextId: nat)
    requires Issued(a, nextId) && a.Keys == b.Keys
    ensures Issued(b, nextId)
  {
  }

  lemma OneMoreDoubled(input: InputGraph, edges: Edges, doubled: set<Id>, e: Id, m: int)
    requires CopyOf(input, edges, input.edges.Keys, doubled) && e in edges && e !in doubled && m == edges[e].value.minLen * 2
    ensures CopyOf(input, edges[e := Edge(edges[e].u, edges[e].v, edges[e].value.(minLen := m))], input.edges.Keys, doubled + {e})
  {
    var edges' := edges[e := Edge(edges[e].u, edges[e].v, edges[e].value.(minLen := m))];
    forall f | f in edges ensures Copies(input, edges', f, f in doubled + {e}) && edges'[f].value.e == edges[f].value.e {
      assert Copies(input, edges, f, f in doubled);
    }
    forall o | o in input.edges.Keys ensures exists f :: f in edges' && edges'[f].value.e == Some(o) {
      var f :| f in edges && edges[f].value.e == Some(o);
      assert edges'[f].value.e == Some(o);
    }
  }

  // ---------- ranking the working graph ----------

  ghost predicate LensPositive(edges: Edges) {
    forall e :: e in edges ==> 1 <= edges[e].value.minLen
  }

  function WithRanks(nodes: Nodes, rank: map<Id, int>): Nodes {
    map u | u in nodes :: if u in rank then nodes[u].(rank := rank[u]) else nodes[u]
  }

  method AssignRanks(g: Digraph<NodeAttr, EdgeAttr>, rank: map<Id, int>)
    requires g.Valid() && rank.Keys == g.nodes.Keys
    modifies g
    ensures g.Valid() && g.edges == old(g.edges) && g.nextId == old(g.nextId) && g.nodes == WithRanks(old(g.nodes), rank)
  {
    hide *;
    var us := Listing(g.nodes.Keys);
    ghost var before := g.nodes;
    UptoEnds(us, rank.Keys);
    RankedSoFar(before, rank);
    for i := 0 to |us|
      invariant g.Valid() && g.edges == old(g.edges) && g.nextId == old(g.nextId)
      invariant g.nodes == SomeRanks(before, rank, Upto(us, i))
    {
      UptoStep(us, rank.Keys, i);
      RanksStep(before, rank, Upto(us, i), us[i]);
      g.SetNode(us[i], g.nodes[us[i]].(rank := rank[us[i]]));
    }
  }

  ghost function SomeRanks(nodes: Nodes, rank: map<Id, int>, done: set<Id>): Nodes {
    map u | u in nodes :: if u in done && u in rank then nodes[u].(rank := rank[u]) else nodes[u]
  }

  lemma RankedSoFar(nodes: Nodes, rank: map<Id, int>)
    ensures SomeRanks(nodes, rank, {}) == nodes && SomeRanks(nodes, rank, rank.Keys) == WithRanks(nodes, rank)
  {
  }

  lemma RanksStep(nodes: Nodes, rank: map<Id, int>, done: set<Id>, u: Id)
    requires u in nodes && u in rank && u !in done
    ensures u in SomeRanks(nodes, rank, done)
    ensures SomeRanks(nodes, rank, done + {u}) ==
            SomeRanks(nodes, rank, done)[u := SomeRanks(nodes, rank, done)[u].(rank := rank[u])]
  {
  }

  /** The edge as reorienting leaves it. */
  function Reoriented(nodes: Nodes, d: Edge<EdgeAttr>): Edge<EdgeAttr> {
    if d.u in nodes && d.v in nodes && nodes[d.u].rank > nodes[d.v].rank
    then Edge(d.v, d.u, d.value.(reversed := true)) else d
  }

  ghost function SomeReoriented(nodes: Nodes, edges: Edges, done: set<Id>): Edges {
    map e | e in edges :: if e in done then Reoriented(nodes, edges[e]) else edges[e]
  }

  /** Reverses edges that point to an earlier rank. */
  method ReorientEdges(g: Digraph<NodeAttr, EdgeAttr>)
    requires g.Valid()
    modifies g
    ensures g.Valid() && g.nodes == old(g.nodes) && g.nextId == old(g.nextId)
    ensures g.edges == SomeReoriented(g.nodes, old(g.edges), old(g.edges).Keys)
  {
    hide *;
    var es := Listing(g.edges.Keys);
    ghost var before := g.edges;
    UptoEnds(es, before.Keys);
    NoneReoriented(g.nodes, before);
    for i := 0 to |es|
      invariant g.Valid() && g.nodes == old(g.nodes) && g.nextId == old(g.nextId)
      invariant g.edges == SomeReoriented(g.nodes, before, Upto(es, i))
    {
      UptoStep(es, before.Keys, i);
      ReorientStep(g.nodes, before, Upto(es, i), es[i]);
      g.Ends();
      EndsAt(g.edges, g.nodes.Keys, es[i]);
      var d := g.edges[es[i]];
      if g.nodes[d.u].rank > g.nodes[d.v].rank {
        var _ := g.DelEdge(es[i]);
        var _ := g.AddEdge(Some(es[i]), d.v, d.u, d.value.(reversed := true));
      }
    }
  }

  lemma NoneReoriented(nodes: Nodes, edges: Edges)
    ensures SomeReoriented(nodes, edges, {}) == edges
  {
  }

  lemma ReorientStep(nodes: Nodes, before: Edges, done: set<Id>, e: Id)
    requires e in before && e !in done
    ensures var edges := SomeReoriented(nodes, before, done);
            var d := before[e];
            && e in edges && edges[e] == d
            && (d.u in nodes && d.v in nodes ==>
                  SomeReoriented(nodes, before, done + {e}) ==
                  if nodes[d.u].rank > nodes[d.v].rank then (edges - {e})[e := Edge(d.v, d.u, d.value.(reversed := true))] else edges)
  {
  }

  /** After the ranking no edge points to an earlier rank. */
  lemma NothingToReorient(nodes: Nodes, edges: Edges)
    requires SpansOne(nodes, edges, edges.Keys) && EndsIn(edges, nodes.Keys)
    ensures SomeReoriented(nodes, edges, edges.Keys) == edges
  {
    forall e | e in edges ensures Reoriented(nodes, edges[e]) == edges[e] {
      assert 1 <= Span(nodes, edges, e);
    }
  }

  /** Ranks change nothing about what the graph represents. */
  lemma RanksKeep(core: Edges, orig: set<Id>, nodes: Nodes, edges: Edges, rank: map<Id, int>)
    requires Represents(core, orig, nodes, edges)
    ensures Represents(core, orig, WithRanks(nodes, rank), edges)
  {
    var nodes' := WithRanks(nodes, rank);
    forall e | RecordedSomewhere(nodes, e) ensures RecordedSomewhere(nodes', e) {
      var n :| Recorded(nodes, n) && nodes[n].edge.value.id == e;
      assert Recorded(nodes', n);
    }
    hide RecordedSomewhere;
    forall u ensures Plain(nodes', u) <==> Plain(nodes, u) {
    }
    forall e ensures Direct(nodes', edges, e) <==> Direct(nodes, edges, e) {
    }
    forall n | Recorded(nodes', n) ensures Recorded(nodes, n) && nodes[n].edge == nodes'[n].edge {
    }
  }

  lemma RanksSpan(core: Edges, orig: set<Id>, nodes: Nodes, edges: Edges, nextId: nat, loops: set<Loop>, rank: map<Id, int>, parts: seq<set<Id>>)
    requires Looped(core, orig, nodes, edges, nextId, loops) && AreComponents(edges, parts, nodes.Keys)
    requires TightComponents(edges, rank, parts, |parts|) && rank.Keys == nodes.Keys && Feasible(edges, rank) && LensPositive(edges)
    ensures SpansOne(WithRanks(nodes, rank), edges, edges.Keys * core.Keys)
  {
    hide *;
    forall e | e in edges ensures SpanOk(WithRanks(nodes, rank), edges, edges.Keys * core.Keys, e) {
      LoopedParts(core, orig, nodes, edges, nextId, loops);
      RankedEdge(nodes, edges, rank, e);
      if e !in core {
        LoopsShort(core, orig, nodes, edges, nextId, loops, rank, parts, e);
      }
      SpanOkIs(WithRanks(nodes, rank), edges, edges.Keys * core.Keys, e);
    }
    AllSpansOk(WithRanks(nodes, rank), edges, edges.Keys * core.Keys);
  }

  ghost predicate SpanOk(nodes: Nodes, edges: Edges, rest: set<Id>, e: Id) {
    1 <= Span(nodes, edges, e) && (e !in rest ==> Span(nodes, edges, e) == 1)
  }

  lemma SpanOkIs(nodes: Nodes, edges: Edges, rest: set<Id>, e: Id)
    requires 1 <= Span(nodes, edges, e) && (e !in rest ==> Span(nodes, edges, e) == 1)
    ensures SpanOk(nodes, edges, rest, e)
  {
  }

  lemma AllSpansOk(nodes: Nodes, edges: Edges, rest: set<Id>)
    requires forall e :: e in edges ==> SpanOk(nodes, edges, rest, e)
    ensures SpansOne(nodes, edges, rest)
  {
    hide Span;
  }

  lemma RankedEdge(nodes: Nodes, edges: Edges, rank: map<Id, int>, e: Id)
    requires e in edges && EndsIn(edges, nodes.Keys) && rank.Keys == nodes.Keys && Feasible(edges, rank) && LensPositive(edges)
    ensures edges[e].u in rank && edges[e].v in rank
    ensures Span(WithRanks(nodes, rank), edges, e) == rank[edges[e].v] - rank[edges[e].u] >= 1
  {
  }

  lemma ReadyToNormalize(core: Edges, orig: set<Id>, nodes: Nodes, edges: Edges, nextId: nat, loops: set<Loop>, rank: map<Id, int>, parts: seq<set<Id>>)
    requires Looped(core, orig, nodes, edges, nextId, loops) && AreComponents(edges, parts, nodes.Keys)
    requires TightComponents(edges, rank, parts, |parts|) && rank.Keys == nodes.Keys && Feasible(edges, rank) && LensPositive(edges)
    ensures Normalizing(core, orig, WithRanks(nodes, rank), edges, nextId, 0, edges.Keys * core.Keys)
    ensures SpansOne(WithRanks(nodes, rank), edges, edges.Keys)
  {
    hide *;
    LoopedParts(core, orig, nodes, edges, nextId, loops);
    RanksKeep(core, orig, nodes, edges, rank);
    RanksSpan(core, orig, nodes, edges, nextId, loops, rank, parts);
    IsNormalizing(core, orig, nodes, edges, nextId, rank);
  }

  lemma IsNormalizing(core: Edges, orig: set<Id>, nodes: Nodes, edges: Edges, nextId: nat, rank: map<Id, int>)
    requires EndsIn(edges, nodes.Keys) && Issued(core, nextId) && (forall n :: n in nodes ==> !n.Dummy?)
    requires Represents(core, orig, WithRanks(nodes, rank), edges)
    requires SpansOne(WithRanks(nodes, rank), edges, edges.Keys * core.Keys)
    ensures Normalizing(core, orig, WithRanks(nodes, rank), edges, nextId, 0, edges.Keys * core.Keys)
    ensures SpansOne(WithRanks(nodes, rank), edges, edges.Keys)
  {
    hide Represents, Issued, Span;
    assert WithRanks(nodes, rank).Keys == nodes.Keys;
  }

  /** In a component that begins with rank zero, every rank below that of a node is reached: otherwise no edge would join the nodes
      below it to the others. */
  lemma RankReached(nodes: Nodes, edges: Edges, rank: map<Id, int>, c: set<Id>, n: Id, k: nat)
    requires rank.Keys == nodes.Keys && EndsIn(edges, nodes.Keys) && Feasible(edges, rank) && LensPositive(edges)
    requires c <= nodes.Keys && Connected(Pairs(edges), c) && FromZero(rank, c) && n in c && k <= rank[n]
    ensures Reached(WithRanks(nodes, rank), edges, k)
  {
    var nodes' := WithRanks(nodes, rank);
    var below := set v | v in c && rank[v] < k;
    if k == 0 {
      var u :| u in c && u in rank && rank[u] == 0;
      assert u in nodes' && nodes'[u].rank == k;
    } else {
      var z :| z in c && z in rank && rank[z] == 0;
      assert z in below && n !in below;
      assert Crossed(Pairs(edges), below, c);
      var p :| p in Pairs(edges) && ((p.0 in below && p.1 in c - below) || (p.1 in below && p.0 in c - below));
      var e :| e in edges && p == (edges[e].u, edges[e].v);
      RankedEdge(nodes, edges, rank, e);
      assert edges[e].v in nodes' && nodes'[edges[e].v].rank >= k && nodes'[edges[e].u].rank < k;
      assert nodes'[edges[e].v].rank == k ==> HasRank(nodes', k);
    }
  }

  /** What Filled says of one node. */
  ghost predicate FilledAt(nodes: Nodes, edges: Edges, n: Id) {
    n in nodes && nodes[n].rank >= 0 && forall k: nat :: k <= nodes[n].rank ==> Reached(nodes, edges, k)
  }

  lemma AllFilled(nodes: Nodes, edges: Edges)
    requires forall n :: n in nodes ==> FilledAt(nodes, edges, n)
    ensures Filled(nodes, edges)
  {
    hide Reached;
  }

  lemma PartWith(edges: Edges, parts: seq<set<Id>>, covered: set<Id>, rank: map<Id, int>, n: Id) returns (c: set<Id>)
    requires AreComponents(edges, parts, covered) && ZeroBased(rank, parts, |parts|) && n in covered
    ensures n in c && c <= covered && Connected(Pairs(edges), c) && FromZero(rank, c)
  {
    hide Connected, FromZero, Separate;
    var i :| 0 <= i < |parts| && n in parts[i];
    c := parts[i];
  }

  lemma RanksFilledAt(nodes: Nodes, edges: Edges, rank: map<Id, int>, parts: seq<set<Id>>, n: Id)
    requires rank.Keys == nodes.Keys && EndsIn(edges, nodes.Keys) && Feasible(edges, rank) && LensPositive(edges)
    requires AreComponents(edges, parts, nodes.Keys) && ZeroBased(rank, parts, |parts|) && n in nodes
    ensures FilledAt(WithRanks(nodes, rank), edges, n)
  {
    hide *;
    var c := PartWith(edges, parts, nodes.Keys, rank, n);
    RankOfNode(nodes, rank, c, n);
    forall k: nat | k <= rank[n] ensures Reached(WithRanks(nodes, rank), edges, k) {
      RankReached(nodes, edges, rank, c, n, k);
    }
    IsFilledAt(WithRanks(nodes, rank), edges, n);
  }

  lemma RankOfNode(nodes: Nodes, rank: map<Id, int>, c: set<Id>, n: Id)
    requires rank.Keys == nodes.Keys && FromZero(rank, c) && n in c
    ensures n in rank && n in WithRanks(nodes, rank) && WithRanks(nodes, rank)[n].rank == rank[n] >= 0
  {
  }

  lemma IsFilledAt(nodes: Nodes, edges: Edges, n: Id)
    requires n in nodes && nodes[n].rank >= 0 && forall k: nat :: k <= nodes[n].rank ==> Reached(nodes, edges, k)
    ensures FilledAt(nodes, edges, n)
  {
    hide Reached;
  }

  lemma RanksFilled(nodes: Nodes, edges: Edges, rank: map<Id, int>, parts: seq<set<Id>>)
    requires rank.Keys == nodes.Keys && EndsIn(edges, nodes.Keys) && Feasible(edges, rank) && LensPositive(edges)
    requires AreComponents(edges, parts, nodes.Keys) && ZeroBased(rank, parts, |parts|)
    ensures Filled(WithRanks(nodes, rank), edges)
  {
    hide *;
    assert WithRanks(nodes, rank).Keys == nodes.Keys by {
      SameNodes(nodes, rank);
    }
    forall n | n in nodes ensures FilledAt(WithRanks(nodes, rank), edges, n) {
      RanksFilledAt(nodes, edges, rank, parts, n);
    }
    AllFilled(WithRanks(nodes, rank), edges);
  }

  lemma SameNodes(nodes: Nodes, rank: map<Id, int>)
    ensures WithRanks(nodes, rank).Keys == nodes.Keys
  {
  }

  /** A dummy of the expanded self loop l stands for e. */
  ghost predicate LoopFor(nodes: Nodes, l: Loop, e: Id, u: Id) {
    l.u == u && exists n :: OfLoop(n, l) && n in nodes && nodes[n].edge.Some? && nodes[n].edge.value.id == e
  }

  ghost predicate HasLoop(nodes: Nodes, loops: set<Loop>, e: Id, u: Id) {
    exists l :: l in loops && LoopFor(nodes, l, e, u)
  }

  /** Every edge of core is there, but for self loops, which have become three dummies and four helper edges each. */
  ghost predicate SetOut(core: Edges, orig: set<Id>, nodes: Nodes, edges: Edges, loops: set<Loop>) {
    && Represents(core, orig, nodes, edges) && AllLoopsIn(nodes, edges, loops)
    && forall e :: e in core ==> if core[e].u == core[e].v then HasLoop(nodes, loops, e, core[e].u) else e in edges && edges[e] == core[e]
  }

  ghost function RanksIn(nodes: Nodes): map<Id, int> {
    map u | u in nodes :: nodes[u].rank
  }

  /** No edge is shorter than its minimum, and each component begins with rank zero and is spanned by edges of exactly their minimum length. */
  ghost predicate RankedOut(nodes: Nodes, edges: Edges, parts: seq<set<Id>>) {
    && Feasible(edges, RanksIn(nodes)) && AreComponents(edges, parts, nodes.Keys)
    && ZeroBased(RanksIn(nodes), parts, |parts|) && TightComponents(edges, RanksIn(nodes), parts, |parts|)
  }

  lemma RankedOutMade(nodes: Nodes, edges: Edges, rank: map<Id, int>, parts: seq<set<Id>>)
    requires rank.Keys == nodes.Keys && Feasible(edges, rank) && AreComponents(edges, parts, nodes.Keys)
    requires TightComponents(edges, rank, parts, |parts|) && ZeroBased(rank, parts, |parts|)
    ensures RankedOut(WithRanks(nodes, rank), edges, parts)
  {
    hide Feasible, AreComponents, TightComponents, ZeroBased;
    assert WithRanks(nodes, rank).Keys == nodes.Keys;
    assert RanksIn(WithRanks(nodes, rank)) == rank;
  }

  /** The edges are those of core, and the helper edges of expanded self loops. */
  ghost predicate CoreAndHelpers(core: Edges, edges: Edges) {
    forall e :: e in edges ==> if e in core then edges[e] == core[e] else edges[e].value == HELPER
  }

  lemma CoreAndHelpersMade(core: Edges, orig: set<Id>, nodes: Nodes, edges: Edges, nextId: nat, loops: set<Loop>)
    requires Looped(core, orig, nodes, edges, nextId, loops)
    ensures CoreAndHelpers(core, edges)
  {
    hide Looped;
    forall e | e in edges ensures if e in core then edges[e] == core[e] else edges[e].value == HELPER {
      CoreOrHelper(core, orig, nodes, edges, nextId, loops, e);
    }
  }

  /** What is recorded before normalization is a self loop. */
  lemma RecordedLoop(core: Edges, orig: set<Id>, nodes: Nodes, edges: Edges, loops: set<Loop>, e: Id)
    requires Represents(core, orig, nodes, edges) && LoopsIn(nodes, edges, loops) && e in core && e !in edges
    ensures core[e].u == core[e].v && HasLoop(nodes, loops, e, core[e].u)
  {
    hide *;
    var n := RecordOn(core, orig, nodes, edges, e);
    var l := DummyLoop(nodes, edges, loops, n);
    LoopIs(nodes, loops, l, n, e);
  }

  lemma RecordOn(core: Edges, orig: set<Id>, nodes: Nodes, edges: Edges, e: Id) returns (n: Id)
    requires Represents(core, orig, nodes, edges) && e in core && e !in edges
    ensures n in nodes && nodes[n].edge.Some? && nodes[n].edge.value.id == e
    ensures core[e].u == nodes[n].edge.value.source && core[e].v == nodes[n].edge.value.target
  {
    assert RecordedSomewhere(nodes, e);
    n :| Recorded(nodes, n) && nodes[n].edge.value.id == e;
    hide RecordedSomewhere, Direct, Plain;
    assert core[e] == RecordOf(nodes[n].edge.value);
  }

  lemma DummyLoop(nodes: Nodes, edges: Edges, loops: set<Loop>, n: Id) returns (l: Loop)
    requires LoopsIn(nodes, edges, loops) && n in nodes && nodes[n].edge.Some?
    ensures l in loops && OfLoop(n, l) && nodes[n].edge.value.source == nodes[n].edge.value.target == l.u
  {
    hide *;
    l := OwnLoop(nodes, edges, loops, n);
    LoopRemembers(nodes, edges, l, n);
  }

  lemma OwnLoop(nodes: Nodes, edges: Edges, loops: set<Loop>, n: Id) returns (l: Loop)
    requires LoopsIn(nodes, edges, loops) && n in nodes && nodes[n].edge.Some?
    ensures l in loops && OfLoop(n, l) && LoopIn(nodes, edges, l)
  {
    hide OfLoop, LoopIn;
    l :| l in loops && OfLoop(n, l);
  }

  lemma LoopRemembers(nodes: Nodes, edges: Edges, l: Loop, n: Id)
    requires LoopIn(nodes, edges, l) && OfLoop(n, l)
    ensures n in nodes && nodes[n].edge.Some? && nodes[n].edge.value.source == nodes[n].edge.value.target == l.u
  {
    hide LoopEdges, LoopAlone;
  }

  lemma LoopIs(nodes: Nodes, loops: set<Loop>, l: Loop, n: Id, e: Id)
    requires l in loops && OfLoop(n, l) && n in nodes && nodes[n].edge.Some? && nodes[n].edge.value.id == e
    ensures HasLoop(nodes, loops, e, l.u)
  {
    hide OfLoop;
    assert LoopFor(nodes, l, e, l.u);
  }

  lemma SetOutMade(core: Edges, orig: set<Id>, nodes: Nodes, edges: Edges, loops: set<Loop>)
    requires Represents(core, orig, nodes, edges) && LoopsIn(nodes, edges, loops) && SpansOne(nodes, edges, edges.Keys) && EndsIn(edges, nodes.Keys)
    ensures SetOut(core, orig, nodes, edges, loops)
  {
    hide *;
    forall e | e in core ensures if core[e].u == core[e].v then HasLoop(nodes, loops, e, core[e].u) else e in edges && edges[e] == core[e] {
      if e in edges {
        SameAsCore(core, orig, nodes, edges, e);
        EndsAt(edges, nodes.Keys, e);
        NotFlat(nodes, edges, e);
      } else {
        RecordedLoop(core, orig, nodes, edges, loops, e);
      }
    }
    SetOutIs(core, orig, nodes, edges, loops);
  }

  lemma SameAsCore(core: Edges, orig: set<Id>, nodes: Nodes, edges: Edges, e: Id)
    requires Represents(core, orig, nodes, edges) && e in core && e in edges
    ensures edges[e] == core[e]
  {
    hide RecordedSomewhere;
    assert Direct(nodes, edges, e);
  }

  lemma NotFlat(nodes: Nodes, edges: Edges, e: Id)
    requires SpansOne(nodes, edges, edges.Keys) && e in edges && edges[e].u in nodes && edges[e].v in nodes
    ensures edges[e].u != edges[e].v
  {
    assert Span(nodes, edges, e) >= 1;
  }

  lemma SetOutIs(core: Edges, orig: set<Id>, nodes: Nodes, edges: Edges, loops: set<Loop>)
    requires Represents(core, orig, nodes, edges) && LoopsIn(nodes, edges, loops)
    requires forall e :: e in core ==> if core[e].u == core[e].v then HasLoop(nodes, loops, e, core[e].u) else e in edges && edges[e] == core[e]
    ensures SetOut(core, orig, nodes, edges, loops)
  {
    hide Represents, AllLoopsIn, DummiesOf, HasLoop;
  }

  /** Ranks do not change which dummies and helper edges there are. */
  lemma RanksLoops(nodes: Nodes, edges: Edges, loops: set<Loop>, rank: map<Id, int>)
    requires LoopsIn(nodes, edges, loops)
    ensures LoopsIn(WithRanks(nodes, rank), edges, loops)
  {
    hide LoopIn, DummiesOf, WithRanks;
    var nodes' := WithRanks(nodes, rank);
    WithRanksKeys(nodes, rank);
    forall l | l in loops ensures LoopIn(nodes', edges, l) {
      LoopSame(nodes, nodes', edges, l);
    }
    DummiesSame(nodes, nodes', loops);
  }

  lemma LoopSame(nodes: Nodes, nodes': Nodes, edges: Edges, l: Loop)
    requires LoopIn(nodes, edges, l) && forall n :: n in nodes ==> n in nodes' && nodes'[n].edge == nodes[n].edge
    ensures LoopIn(nodes', edges, l)
  {
    hide LoopEdges, LoopAlone;
  }

  lemma WithRanksKeys(nodes: Nodes, rank: map<Id, int>)
    ensures forall n :: n in WithRanks(nodes, rank) ==> n in nodes && WithRanks(nodes, rank)[n].edge == nodes[n].edge
    ensures forall n :: n in nodes ==> n in WithRanks(nodes, rank) && WithRanks(nodes, rank)[n].edge == nodes[n].edge
  {
  }

  lemma DummiesSame(nodes: Nodes, nodes': Nodes, loops: set<Loop>)
    requires DummiesOf(nodes, loops) && forall n :: n in nodes' ==> n in nodes && nodes'[n].edge == nodes[n].edge
    ensures DummiesOf(nodes', loops)
  {
    hide OfLoop;
  }

  /** Breaks cycles and ranks: afterwards every edge points to a later rank, and the edges at the
      dummies of self loops span exactly one. */
  method RankRun(g: Digraph<NodeAttr, EdgeAttr>, ghost orig: set<Id>) returns (ghost core: Edges, ghost loops: set<Loop>, ghost parts: seq<set<Id>>)
    requires g.Valid() && Looped(g.edges, orig, g.nodes, g.edges, g.nextId, {})
    requires NoneReversed(g.edges) && LensPositive(g.edges)
    modifies g
    ensures g.Valid() && SomeFlipped(old(g.edges), core)
    ensures Normalizing(core, orig, g.nodes, g.edges, g.nextId, 0, g.edges.Keys * core.Keys) && Filled(g.nodes, g.edges)
    ensures SetOut(core, orig, g.nodes, g.edges, loops) && RankedOut(g.nodes, g.edges, parts) && CoreAndHelpers(core, g.edges)
  {
    hide *;
    ghost var core0 := g.edges;
    loops := ExpandSelfLoops(g, orig);
    ghost var edges0 := g.edges;
    Unflagged(core0, orig, g.nodes, edges0, g.nextId, loops);
    Acyclic(g);
    FlipsKeep(core0, orig, g.nodes, edges0, g.nextId, loops, g.edges);
    core := Turned(core0, g.edges);
    FlippedFacts(edges0, g.edges);
    g.Ends();
    var rank;
    rank, parts := RankGraph(g.nodes.Keys, g.edges);
    ReadyToNormalize(core, orig, g.nodes, g.edges, g.nextId, loops, rank, parts);
    RanksFilled(g.nodes, g.edges, rank, parts);
    RankedOutMade(g.nodes, g.edges, rank, parts);
    CoreAndHelpersMade(core, orig, g.nodes, g.edges, g.nextId, loops);
    LoopedParts(core, orig, g.nodes, g.edges, g.nextId, loops);
    RanksKeep(core, orig, g.nodes, g.edges, rank);
    RanksLoops(g.nodes, g.edges, loops, rank);
    AssignRanks(g, rank);
    g.Ends();
    SetOutMade(core, orig, g.nodes, g.edges, loops);
    NothingToReorient(g.nodes, g.edges);
    ReorientEdges(g);
  }

  lemma Unflagged(core: Edges, orig: set<Id>, nodes: Nodes, edges: Edges, nextId: nat, loops: set<Loop>)
    requires Looped(core, orig, nodes, edges, nextId, loops) && NoneReversed(core) && LensPositive(core)
    ensures NoneReversed(edges) && LensPositive(edges)
  {
    forall e | e in edges ensures !edges[e].value.reversed && 1 <= edges[e].value.minLen {
      CoreOrHelper(core, orig, nodes, edges, nextId, loops, e);
    }
  }

  lemma CoreOrHelper(core: Edges, orig: set<Id>, nodes: Nodes, edges: Edges, nextId: nat, loops: set<Loop>, e: Id)
    requires Looped(core, orig, nodes, edges, nextId, loops) && e in edges
    ensures if e in core then edges[e] == core[e] else edges[e].value == HELPER
  {
    hide *;
    LoopedParts(core, orig, nodes, edges, nextId, loops);
    if e in core {
      CoreEdge(core, orig, nodes, edges, e);
    } else {
      var l := HelperLoop(core, edges, loops, e);
      LoopAt(nodes, edges, loops, l);
      HelperValue(nodes, edges, l, e);
    }
  }

  lemma CoreEdge(core: Edges, orig: set<Id>, nodes: Nodes, edges: Edges, e: Id)
    requires Represents(core, orig, nodes, edges) && e in core && e in edges
    ensures edges[e] == core[e]
  {
    hide RecordedSomewhere;
    assert Direct(nodes, edges, e);
  }

  lemma HelperValue(nodes: Nodes, edges: Edges, l: Loop, e: Id)
    requires LoopIn(nodes, edges, l) && LoopEdge(e, l) && e in edges
    ensures edges[e].value == HELPER
  {
    hide LoopAlone, Plain, Recorded;
  }

  lemma FlippedFacts(before: Edges, after: Edges)
    requires SomeFlipped(before, after) && NoSelfLoops(before) && LensPositive(before)
    ensures NoSelfLoops(after) && LensPositive(after)
  {
  }

  // ---------- the final graph ----------

  /** The output has the input's edge ids with the input's ends. */
  ghost predicate SameStructure(input: InputGraph, nodes: set<Id>, edges: Edges) {
    && nodes == input.nodes && edges.Keys == input.edges.Keys
    && forall e :: e in edges ==> edges[e].u == input.edges[e].u && edges[e].v == input.edges[e].v
  }

  /** The edges of `done`, under their input ids. */
  ghost predicate Renamed(edges: Edges, done: set<Id>, out: Edges) {
    && done <= edges.Keys
    && (forall e :: e in done ==> edges[e].value.e.Some? && edges[e].value.e.value in out && out[edges[e].value.e.value] == edges[e])
    && (forall o :: o in out ==> exists e :: e in done && edges[e].value.e == Some(o))
  }

  method CreateFinalGraph(g: Digraph<NodeAttr, EdgeAttr>, ghost input: InputGraph) returns (out: Digraph<NodeAttr, EdgeAttr>)
    requires g.Valid() && CopyOf(input, g.edges, input.edges.Keys, g.edges.Keys) && g.nodes.Keys == input.nodes
    ensures fresh(out) && out.Valid() && SameStructure(input, out.nodes.Keys, out.edges)
  {
    out := new Digraph<NodeAttr, EdgeAttr>();
    g.Ends();
    hide Digraph.Valid, CopyOf, SameStructure, EndsIn;
    var us := Listing(g.nodes.Keys);
    UptoEnds(us, g.nodes.Keys);
    for i := 0 to |us|
      invariant fresh(out) && out.Valid() && out.edges == map[] && out.nodes.Keys == Upto(us, i)
    {
      UptoStep(us, g.nodes.Keys, i);
      var _ := out.AddNode(Some(us[i]), g.nodes[us[i]]);
    }
    AddFinalEdges(g, out, input);
  }

  method AddFinalEdges(g: Digraph<NodeAttr, EdgeAttr>, out: Digraph<NodeAttr, EdgeAttr>, ghost input: InputGraph)
    requires g.Valid() && CopyOf(input, g.edges, input.edges.Keys, g.edges.Keys) && EndsIn(g.edges, g.nodes.Keys) && g != out
    requires out.Valid() && out.edges == map[] && out.nodes.Keys == g.nodes.Keys == input.nodes
    modifies out
    ensures out.Valid() && SameStructure(input, out.nodes.Keys, out.edges)
  {
    hide *;
    var es := Listing(g.edges.Keys);
    UptoEnds(es, g.edges.Keys);
    NoneRenamed(g.edges);
    for i := 0 to |es|
      invariant out.Valid() && out.nodes == old(out.nodes) && g.edges == old(g.edges) && g.nodes == old(g.nodes)
      invariant Renamed(g.edges, Upto(es, i), out.edges)
    {
      UptoStep(es, g.edges.Keys, i);
      EndsAt(g.edges, g.nodes.Keys, es[i]);
      NextName(input, g.edges, Upto(es, i), out.edges, es[i]);
      var d := g.edges[es[i]];
      var _ := out.AddEdge(d.value.e, d.u, d.v, d.value);
    }
    AllRenamed(input, g.edges, out.edges, out.nodes.Keys);
  }

  lemma NoneRenamed(edges: Edges)
    ensures Renamed(edges, {}, map[])
  {
  }

  lemma NextName(input: InputGraph, edges: Edges, done: set<Id>, out: Edges, e: Id)
    requires CopyOf(input, edges, input.edges.Keys, edges.Keys) && Renamed(edges, done, out) && e in edges && e !in done
    ensures edges[e].value.e.Some? && edges[e].value.e.value !in out
    ensures Renamed(edges, done + {e}, out[edges[e].value.e.value := Edge(edges[e].u, edges[e].v, edges[e].value)])
  {
    assert Copies(input, edges, e, true);
    var o := edges[e].value.e.value;
    var out' := out[o := edges[e]];
    forall p | p in out' ensures exists f :: f in done + {e} && edges[f].value.e == Some(p) {
      if p == o {
        assert e in done + {e};
      } else {
        var f :| f in done && edges[f].value.e == Some(p);
        assert f in done + {e};
      }
    }
  }

  lemma AllRenamed(input: InputGraph, edges: Edges, out: Edges, nodes: set<Id>)
    requires CopyOf(input, edges, input.edges.Keys, edges.Keys) && Renamed(edges, edges.Keys, out) && nodes == input.nodes
    ensures SameStructure(input, nodes, out)
  {
    forall o ensures o in out <==> o in input.edges {
      if o in out {
        var e :| e in edges && edges[e].value.e == Some(o);
        assert Copies(input, edges, e, true);
      }
      if o in input.edges {
        var e :| e in edges && edges[e].value.e == Some(o);
      }
    }
    forall o | o in out ensures out[o].u == input.edges[o].u && out[o].v == input.edges[o].v {
      var e :| e in edges && edges[e].value.e == Some(o);
      assert Copies(input, edges, e, true);
    }
  }

  // ---------- run ----------

  /** The graph that is drawn: every edge of core, unless it is a self loop, is there or has become a chain of dummies that stand for it, and
      every self loop has become dummies and helper edges, which are there in the same sense; before, the nodes have got their ranks. */
  ghost predicate DrawnOut(core: Edges, orig: set<Id>, nodes: Nodes, edges: Edges) {
    exists nodes0, edges0, loops, parts ::
      && SetOut(core, orig, nodes0, edges0, loops) && RankedOut(nodes0, edges0, parts) && CoreAndHelpers(core, edges0)
      && Carrying(nodes0, edges0, nodes, edges)
  }

  lemma DrawnOutSo(core: Edges, orig: set<Id>, nodes0: Nodes, edges0: Edges, loops: set<Loop>, parts: seq<set<Id>>, nodes: Nodes, edges: Edges)
    requires SetOut(core, orig, nodes0, edges0, loops) && RankedOut(nodes0, edges0, parts) && CoreAndHelpers(core, edges0)
    requires Carrying(nodes0, edges0, nodes, edges)
    ensures DrawnOut(core, orig, nodes, edges)
  {
    hide SetOut, RankedOut, CoreAndHelpers, Carrying;
  }

  /** The picture shows a graph that represents the input, some edges of which have been turned round: its nodes are those of the input and dummies,
      and each edge is there directly or as a chain. */
  ghost predicate PictureOf(input: InputGraph, p: Picture, maxSweeps: nat, restarts: nat, setting: Setting) {
    exists copy: Edges, core: Edges, nodes: Nodes, edges: Edges ::
      && CopyOf(input, copy, input.edges.Keys, copy.Keys) && SomeFlipped(copy, core)
      && Represents(core, input.nodes, nodes, edges) && DrawnOut(core, input.nodes, nodes, edges)
      && Shows(p, nodes, edges, maxSweeps, restarts, Halved(setting))
  }

  /** Since all lengths have been doubled, the ranks are put half as far apart. */
  function Halved(setting: Setting): Setting {
    setting.(rankSep := setting.rankSep / 2.0)
  }

  lemma HalvedIs(setting: Setting)
    requires Coordinates.Proper(setting)
    ensures Coordinates.Proper(Halved(setting)) && Halved(setting).rankSep * 2.0 == setting.rankSep
  {
    assert forall u :: Halved(setting).Width(u) == setting.Width(u);
  }

  lemma HalvedSizes(setting: Setting, points: map<Id, Coordinates.Point>, u: Id, v: Id)
    requires u in points && v in points && Coordinates.Disjoint(Halved(setting), points, u, v)
    ensures Coordinates.Disjoint(setting, points, u, v)
  {
  }

  /** The stages of the layout in sequence: each finds what it asks for, the picture is drawn of the normalized graph, and after everything has been
      undone the structure is that of the input. */
  method Run(input: InputGraph, maxSweeps: nat, restarts: nat, setting: Setting)
    returns (out: Digraph<NodeAttr, EdgeAttr>, picture: Option<Picture>)
    requires input.Valid() && input.NoDummyNames()
    ensures fresh(out) && out.Valid() && SameStructure(input, out.nodes.Keys, out.edges)
    ensures picture.None? <==> input.nodes == {}
    ensures picture.Some? ==> PictureOf(input, picture.value, maxSweeps, restarts, setting)
  {
    hide PictureOf;
    var g := InitLayoutGraph(input);
    if |g.nodes| == 0 {
      EmptyInput(input, g.nodes, g.edges);
      return g, None;
    }
    var p;
    assert g.nodes.Keys == input.nodes;
    out, p := RunStages(g, input, maxSweeps, restarts, setting);
    picture := Some(p);
  }

  /** In the layout no two nodes of the input overlap. */
  lemma LayoutClear(input: InputGraph, p: Picture, maxSweeps: nat, restarts: nat, setting: Setting, u: Id, v: Id)
    requires PictureOf(input, p, maxSweeps, restarts, setting) && Coordinates.Proper(setting) && u in input.nodes && v in input.nodes && u != v
    ensures u in p.points && v in p.points && Coordinates.Disjoint(setting, p.points, u, v)
  {
    hide *;
    var copy, core, nodes, edges := Shown(input, p, maxSweeps, restarts, setting);
    NodeThere(core, input.nodes, nodes, edges, u);
    NodeThere(core, input.nodes, nodes, edges, v);
    HalvedIs(setting);
    PictureClear(p, nodes, edges, maxSweeps, restarts, Halved(setting), u, v);
    HalvedSizes(setting, p.points, u, v);
  }

  /** The graph that the picture shows. */
  lemma Shown(input: InputGraph, p: Picture, maxSweeps: nat, restarts: nat, setting: Setting)
    returns (copy: Edges, core: Edges, nodes: Nodes, edges: Edges)
    requires PictureOf(input, p, maxSweeps, restarts, setting)
    ensures CopyOf(input, copy, input.edges.Keys, copy.Keys) && SomeFlipped(copy, core)
    ensures Represents(core, input.nodes, nodes, edges) && DrawnOut(core, input.nodes, nodes, edges)
    ensures Shows(p, nodes, edges, maxSweeps, restarts, Halved(setting))
  {
    hide CopyOf, SomeFlipped, Represents, DrawnOut, Shows, Halved;
    copy, core, nodes, edges :|
      && CopyOf(input, copy, input.edges.Keys, copy.Keys) && SomeFlipped(copy, core)
      && Represents(core, input.nodes, nodes, edges) && DrawnOut(core, input.nodes, nodes, edges)
      && Shows(p, nodes, edges, maxSweeps, restarts, Halved(setting));
  }

  /** The graph before long edges became chains. */
  lemma Unchained(core: Edges, orig: set<Id>, nodes: Nodes, edges: Edges) returns (nodes0: Nodes, edges0: Edges, loops: set<Loop>, parts: seq<set<Id>>)
    requires DrawnOut(core, orig, nodes, edges)
    ensures SetOut(core, orig, nodes0, edges0, loops) && RankedOut(nodes0, edges0, parts) && CoreAndHelpers(core, edges0)
    ensures Carrying(nodes0, edges0, nodes, edges)
  {
    hide SetOut, RankedOut, CoreAndHelpers, Carrying;
    nodes0, edges0, loops, parts :|
      && SetOut(core, orig, nodes0, edges0, loops) && RankedOut(nodes0, edges0, parts) && CoreAndHelpers(core, edges0)
      && Carrying(nodes0, edges0, nodes, edges);
  }

  /** w is the input edge d while the layout runs: in its direction or, if it has been turned, against it, and twice as long as asked for. */
  ghost predicate Stands(d: InputEdge, w: Edge<EdgeAttr>) {
    && (if w.value.reversed then w.u == d.v && w.v == d.u else w.u == d.u && w.v == d.v)
    && w.value.minLen == 2 * if d.minLen == 0 then 1 else d.minLen
  }

  ghost predicate StandsAmong(input: InputGraph, w: Edge<EdgeAttr>) {
    exists o :: o in input.edges && Stands(input.edges[o], w)
  }

  lemma WorkingEdge(input: InputGraph, copy: Edges, core: Edges, o: Id) returns (e: Id)
    requires CopyOf(input, copy, input.edges.Keys, copy.Keys) && SomeFlipped(copy, core) && o in input.edges
    ensures e in core && Stands(input.edges[o], core[e])
  {
    e :| e in copy && copy[e].value.e == Some(o);
    assert Copies(input, copy, e, true);
  }

  lemma WorkingFor(input: InputGraph, copy: Edges, core: Edges, e: Id)
    requires CopyOf(input, copy, input.edges.Keys, copy.Keys) && SomeFlipped(copy, core) && e in core
    ensures StandsAmong(input, core[e])
  {
    assert Copies(input, copy, e, true);
    assert Stands(input.edges[copy[e].value.e.value], core[e]);
  }

  /** The layers of the picture are the ranks that the nodes have got. */
  lemma RankShown(nodes0: Nodes, edges0: Edges, parts: seq<set<Id>>, nodes: Nodes, edges: Edges, p: Picture, u: Id)
    requires RankedOut(nodes0, edges0, parts) && Carrying(nodes0, edges0, nodes, edges) && p.layers == LayersOf(nodes, edges, p.layers.height)
    requires u in nodes0
    ensures u in p.layers.rank && p.layers.rank[u] == nodes0[u].rank
  {
    hide *;
    RankedParts(nodes0, edges0, parts);
    NotBelowZero(nodes0, edges0, parts, u);
    CarriedNode(nodes0, edges0, nodes, edges, u);
    LayerOf(nodes, edges, p.layers.height, u);
  }

  lemma NotBelowZero(nodes: Nodes, edges: Edges, parts: seq<set<Id>>, u: Id)
    requires AreComponents(edges, parts, nodes.Keys) && ZeroBased(RanksIn(nodes), parts, |parts|) && u in nodes
    ensures nodes[u].rank >= 0
  {
    var c := PartWith(edges, parts, nodes.Keys, RanksIn(nodes), u);
    hide AreComponents, ZeroBased, Connected;
  }

  lemma CarriedNode(nodes0: Nodes, edges0: Edges, nodes: Nodes, edges: Edges, u: Id)
    requires Carrying(nodes0, edges0, nodes, edges) && u in nodes0
    ensures u in nodes && nodes[u] == nodes0[u]
  {
    hide Carried;
  }

  /** The edges whose ends are exactly as many ranks apart as they have to be. */
  ghost function Exactly(edges: Edges, rank: map<Id, nat>): Edges {
    map e | e in edges && edges[e].u in rank && edges[e].v in rank && rank[edges[e].v] == rank[edges[e].u] + edges[e].value.minLen :: edges[e]
  }

  /** What the ranks in the picture are, for the input edges that are no self loops and the helper edges in place of the others: no edge is shorter than
      its length, and each component begins with rank zero and is connected by the edges of exactly their length alone. */
  ghost predicate LayersFit(input: InputGraph, rank: map<Id, nat>, edges: Edges, parts: seq<set<Id>>, covered: set<Id>) {
    && (forall e :: e in edges ==> StandsAmong(input, edges[e]) || edges[e].value == HELPER)
    && (forall o :: o in input.edges && input.edges[o].u != input.edges[o].v ==> exists e :: e in edges && Stands(input.edges[o], edges[e]))
    && input.nodes <= covered <= rank.Keys && AreComponents(edges, parts, covered)
    && (forall e :: e in edges ==> LongEnoughFor(rank, edges[e]))
    && (forall i :: 0 <= i < |parts| ==> BeginsAtZero(rank, parts[i]) && Connected(Pairs(Exactly(edges, rank)), parts[i]))
  }

  ghost predicate LongEnoughFor(rank: map<Id, nat>, d: Edge<EdgeAttr>) {
    d.u in rank && d.v in rank && rank[d.v] >= rank[d.u] + d.value.minLen
  }

  ghost predicate BeginsAtZero(rank: map<Id, nat>, c: set<Id>) {
    exists u :: u in c && u in rank && rank[u] == 0
  }

  lemma LayoutRanked(input: InputGraph, p: Picture, maxSweeps: nat, restarts: nat, setting: Setting)
    returns (edges: Edges, parts: seq<set<Id>>, covered: set<Id>)
    requires PictureOf(input, p, maxSweeps, restarts, setting)
    ensures LayersFit(input, p.layers.rank, edges, parts, covered)
  {
    hide *;
    var copy, core, nodes, shown := Shown(input, p, maxSweeps, restarts, setting);
    LayersShown(p, nodes, shown, maxSweeps, restarts, Halved(setting));
    var nodes0, loops;
    nodes0, edges, loops, parts := Unchained(core, input.nodes, nodes, shown);
    covered := nodes0.Keys;
    var rank := p.layers.rank;
    forall u | u in nodes0 ensures u in rank && rank[u] == nodes0[u].rank {
      RankShown(nodes0, edges, parts, nodes, shown, p, u);
    }
    SetOutNodes(core, input.nodes, nodes0, edges, loops);
    RankedParts(nodes0, edges, parts);
    forall e | e in edges ensures (StandsAmong(input, edges[e]) || edges[e].value == HELPER) && LongEnoughFor(rank, edges[e]) {
      CoreOrHelp(core, edges, e);
      if e in core {
        WorkingFor(input, copy, core, e);
      }
      LongShown(nodes0, edges, rank, e);
    }
    forall o | o in input.edges && input.edges[o].u != input.edges[o].v ensures exists e :: e in edges && Stands(input.edges[o], edges[e]) {
      var e := WorkingEdge(input, copy, core, o);
      StandsEnds(input.edges[o], core[e]);
      SetOutEdge(core, input.nodes, nodes0, edges, loops, e);
    }
    forall i | 0 <= i < |parts| ensures BeginsAtZero(rank, parts[i]) && Connected(Pairs(Exactly(edges, rank)), parts[i]) {
      PartShown(nodes0, edges, parts, rank, i);
    }
    LayersFitMade(input, rank, edges, parts, covered);
  }

  lemma StandsEnds(d: InputEdge, w: Edge<EdgeAttr>)
    requires Stands(d, w)
    ensures d.u != d.v ==> w.u != w.v
  {
  }

  lemma SetOutNodes(core: Edges, orig: set<Id>, nodes: Nodes, edges: Edges, loops: set<Loop>)
    requires SetOut(core, orig, nodes, edges, loops)
    ensures orig <= nodes.Keys
  {
    hide AllLoopsIn, HasLoop, RecordedSomewhere;
    forall u | u in orig ensures u in nodes {
      assert Plain(nodes, u);
    }
  }

  lemma SetOutEdge(core: Edges, orig: set<Id>, nodes: Nodes, edges: Edges, loops: set<Loop>, e: Id)
    requires SetOut(core, orig, nodes, edges, loops) && e in core && core[e].u != core[e].v
    ensures e in edges && edges[e] == core[e]
  {
    hide AllLoopsIn, HasLoop, Represents;
  }

  lemma CoreOrHelp(core: Edges, edges: Edges, e: Id)
    requires CoreAndHelpers(core, edges) && e in edges
    ensures if e in core then edges[e] == core[e] else edges[e].value == HELPER
  {
  }

  lemma RankedParts(nodes: Nodes, edges: Edges, parts: seq<set<Id>>)
    requires RankedOut(nodes, edges, parts)
    ensures Feasible(edges, RanksIn(nodes)) && AreComponents(edges, parts, nodes.Keys)
    ensures ZeroBased(RanksIn(nodes), parts, |parts|) && TightComponents(edges, RanksIn(nodes), parts, |parts|)
  {
    hide Feasible, AreComponents, ZeroBased, TightComponents;
  }

  lemma LongShown(nodes: Nodes, edges: Edges, rank: map<Id, nat>, e: Id)
    requires Feasible(edges, RanksIn(nodes)) && e in edges && forall u :: u in nodes ==> u in rank && rank[u] == nodes[u].rank
    ensures LongEnoughFor(rank, edges[e])
  {
  }

  lemma PartShown(nodes: Nodes, edges: Edges, parts: seq<set<Id>>, rank: map<Id, nat>, i: nat)
    requires ZeroBased(RanksIn(nodes), parts, |parts|) && TightComponents(edges, RanksIn(nodes), parts, |parts|) && i < |parts|
    requires forall u :: u in nodes ==> u in rank && rank[u] == nodes[u].rank
    ensures BeginsAtZero(rank, parts[i]) && Connected(Pairs(Exactly(edges, rank)), parts[i])
  {
    hide *;
    PartTight(nodes, edges, parts, i);
    ZeroShown(nodes, rank, parts[i]);
    var links := TreeOf(edges, RanksIn(nodes), parts[i]);
    forall l | l in links ensures (l.u, l.v) in Pairs(Exactly(edges, rank)) {
      LinkShown(nodes, edges, rank, parts[i], links, l);
    }
    LinksConnect(edges, parts[i], RanksIn(nodes), links);
    MorePairs(links, Pairs(Exactly(edges, rank)), parts[i]);
  }

  lemma PartTight(nodes: Nodes, edges: Edges, parts: seq<set<Id>>, i: nat)
    requires ZeroBased(RanksIn(nodes), parts, |parts|) && TightComponents(edges, RanksIn(nodes), parts, |parts|) && i < |parts|
    ensures FromZero(RanksIn(nodes), parts[i]) && HasTightTree(edges, RanksIn(nodes), parts[i])
  {
    hide FromZero, HasTightTree;
  }

  lemma ZeroShown(nodes: Nodes, rank: map<Id, nat>, c: set<Id>)
    requires FromZero(RanksIn(nodes), c) && forall u :: u in nodes ==> u in rank && rank[u] == nodes[u].rank
    ensures BeginsAtZero(rank, c)
  {
    var u :| u in c && u in RanksIn(nodes) && RanksIn(nodes)[u] == 0;
    assert u in nodes;
  }

  lemma TreeOf(edges: Edges, rank: map<Id, int>, c: set<Id>) returns (links: seq<Link>)
    requires HasTightTree(edges, rank, c)
    ensures TightSpanningTree(Within(edges, c), c, rank, links)
  {
    hide TightSpanningTree;
    links :| TightSpanningTree(Within(edges, c), c, rank, links);
  }

  lemma LinksConnect(edges: Edges, c: set<Id>, rank: map<Id, int>, links: seq<Link>)
    requires TightSpanningTree(Within(edges, c), c, rank, links)
    ensures Connected(LinkPairs(links), c)
  {
    hide Feasible, Connected, TightPair;
  }

  lemma LinkShown(nodes: Nodes, edges: Edges, rank: map<Id, nat>, c: set<Id>, links: seq<Link>, l: Link)
    requires TightSpanningTree(Within(edges, c), c, RanksIn(nodes), links) && l in links
    requires forall u :: u in nodes ==> u in rank && rank[u] == nodes[u].rank
    ensures (l.u, l.v) in Pairs(Exactly(edges, rank))
  {
    hide Feasible, Connected;
    assert TightPair(Within(edges, c), RanksIn(nodes), l.u, l.v);
    var e :| TightEdge(Within(edges, c), RanksIn(nodes), e) && Within(edges, c)[e].u == l.u && Within(edges, c)[e].v == l.v;
    assert e in Exactly(edges, rank);
  }

  lemma MorePairs(links: seq<Link>, pairs: set<(Id, Id)>, c: set<Id>)
    requires Connected(LinkPairs(links), c) && forall l :: l in links ==> (l.u, l.v) in pairs
    ensures Connected(pairs, c)
  {
    forall s | s <= c && s != {} && s != c ensures Crossed(pairs, s, c) {
      assert Crossed(LinkPairs(links), s, c);
      var p :| p in LinkPairs(links) && ((p.0 in s && p.1 in c - s) || (p.1 in s && p.0 in c - s));
      assert p in pairs;
    }
  }

  lemma LayersFitMade(input: InputGraph, rank: map<Id, nat>, edges: Edges, parts: seq<set<Id>>, covered: set<Id>)
    requires forall e :: e in edges ==> (StandsAmong(input, edges[e]) || edges[e].value == HELPER) && LongEnoughFor(rank, edges[e])
    requires forall o :: o in input.edges && input.edges[o].u != input.edges[o].v ==> exists e :: e in edges && Stands(input.edges[o], edges[e])
    requires input.nodes <= covered && (forall u :: u in covered ==> u in rank) && AreComponents(edges, parts, covered)
    requires forall i :: 0 <= i < |parts| ==> BeginsAtZero(rank, parts[i]) && Connected(Pairs(Exactly(edges, rank)), parts[i])
    ensures LayersFit(input, rank, edges, parts, covered)
  {
    hide StandsAmong, Stands, LongEnoughFor, AreComponents, BeginsAtZero, Connected, Exactly;
  }

  /** The ends of d are at least twice its length apart. */
  ghost predicate FarApart(rank: map<Id, nat>, d: InputEdge) {
    var m := 2 * if d.minLen == 0 then 1 else d.minLen;
    d.u in rank && d.v in rank && (rank[d.v] >= rank[d.u] + m || rank[d.u] >= rank[d.v] + m)
  }

  /** So are those of every input edge that is no self loop, in the layers. */
  lemma EdgeSpans(input: InputGraph, p: Picture, maxSweeps: nat, restarts: nat, setting: Setting, o: Id)
    requires PictureOf(input, p, maxSweeps, restarts, setting) && o in input.edges && input.edges[o].u != input.edges[o].v
    ensures FarApart(p.layers.rank, input.edges[o])
  {
    hide *;
    var edges, parts, covered := LayoutRanked(input, p, maxSweeps, restarts, setting);
    EdgeLong(input, p.layers.rank, edges, parts, covered, o);
  }

  /** In the layout, these ends are at least as far apart in the rank direction as the length and the separation of the ranks ask for. */
  lemma EdgeDrawn(input: InputGraph, p: Picture, maxSweeps: nat, restarts: nat, setting: Setting, o: Id)
    requires PictureOf(input, p, maxSweeps, restarts, setting) && Coordinates.Proper(setting)
    requires o in input.edges && input.edges[o].u != input.edges[o].v
    ensures DrawnLong(setting, p.points, input.edges[o])
  {
    hide *;
    EdgeSpans(input, p, maxSweeps, restarts, setting, o);
    var copy, core, nodes, edges := Shown(input, p, maxSweeps, restarts, setting);
    HalvedIs(setting);
    var d := input.edges[o];
    FarParts(p.layers.rank, d);
    if p.layers.rank[d.u] <= p.layers.rank[d.v] {
      PictureAhead(p, nodes, edges, maxSweeps, restarts, Halved(setting), d.u, d.v);
      LongEnoughDrawn(setting, p.points, p.layers.rank, d, d.u, d.v);
    } else {
      PictureAhead(p, nodes, edges, maxSweeps, restarts, Halved(setting), d.v, d.u);
      LongEnoughDrawn(setting, p.points, p.layers.rank, d, d.v, d.u);
    }
  }

  ghost predicate DrawnLong(setting: Setting, points: map<Id, Coordinates.Point>, d: InputEdge) {
    var far := setting.rankSep * if d.minLen == 0 then 1.0 else d.minLen as real;
    && d.u in points && d.v in points
    && (Coordinates.Ahead(setting, points, d.u, d.v) >= far || Coordinates.Ahead(setting, points, d.v, d.u) >= far)
  }

  lemma FarParts(rank: map<Id, nat>, d: InputEdge)
    requires FarApart(rank, d)
    ensures d.u in rank && d.v in rank
  {
  }

  lemma LongEnoughDrawn(setting: Setting, points: map<Id, Coordinates.Point>, rank: map<Id, nat>, d: InputEdge, a: Id, b: Id)
    requires FarApart(rank, d) && Coordinates.Proper(setting) && ((a == d.u && b == d.v) || (a == d.v && b == d.u))
    requires a in points && b in points && a in rank && b in rank && rank[a] <= rank[b]
    requires Coordinates.Ahead(Halved(setting), points, a, b) >= Coordinates.Times(rank[b] - rank[a], Halved(setting).rankSep)
    ensures DrawnLong(setting, points, d)
  {
    hide Coordinates.Ahead;
    AheadHalved(setting, points, a, b);
    SeparationIs(setting);
    var m := if d.minLen == 0 then 1 else d.minLen;
    hide Coordinates.Proper;
    assert rank[b] - rank[a] >= 2 * m;
    TwiceHalf(rank[b] - rank[a], m, setting.rankSep);
  }

  lemma AheadHalved(setting: Setting, points: map<Id, Coordinates.Point>, a: Id, b: Id)
    requires a in points && b in points
    ensures Coordinates.Ahead(Halved(setting), points, a, b) == Coordinates.Ahead(setting, points, a, b)
  {
  }

  lemma SeparationIs(setting: Setting)
    requires Coordinates.Proper(setting)
    ensures setting.rankSep >= 0.0 && Halved(setting).rankSep == setting.rankSep / 2.0
  {
  }

  lemma TwiceHalf(k: nat, m: nat, s: real)
    requires k >= 2 * m && s >= 0.0
    ensures Coordinates.Times(k, s / 2.0) >= s * m as real
  {
    assert k as real * (s / 2.0) - s * m as real == (k - 2 * m) as real * (s / 2.0);
  }

  lemma EdgeLong(input: InputGraph, rank: map<Id, nat>, edges: Edges, parts: seq<set<Id>>, covered: set<Id>, o: Id)
    requires LayersFit(input, rank, edges, parts, covered) && o in input.edges && input.edges[o].u != input.edges[o].v
    ensures FarApart(rank, input.edges[o])
  {
    hide StandsAmong, AreComponents, BeginsAtZero, Connected, Exactly;
    var e :| e in edges && Stands(input.edges[o], edges[e]);
    assert LongEnoughFor(rank, edges[e]);
  }

  /** Neighbours in a layer are apart by their sizes and the separation asked for: that for edges at every node that is not in the input. */
  lemma LayoutGap(input: InputGraph, p: Picture, maxSweeps: nat, restarts: nat, setting: Setting, u: Id, v: Id)
    requires PictureOf(input, p, maxSweeps, restarts, setting)
    requires u in p.layers.rank && v in p.layers.rank && u in p.order && v in p.order
    requires p.layers.rank[u] == p.layers.rank[v] && p.order[v] == p.order[u] + 1
    ensures u in p.points && v in p.points
    ensures (if setting.rankDir == Coordinates.LR || setting.rankDir == Coordinates.RL then p.points[v].y - p.points[u].y else p.points[v].x - p.points[u].x)
            >= Coordinates.LeastGap(setting, p.layers.rank.Keys - input.nodes, u, v)
  {
    hide *;
    var copy, core, nodes, edges := Shown(input, p, maxSweeps, restarts, setting);
    PictureGap(p, nodes, edges, maxSweeps, restarts, Halved(setting), u, v);
    DummiesAre(core, input.nodes, nodes, edges);
    LayersShown(p, nodes, edges, maxSweeps, restarts, Halved(setting));
    LayerNodes(nodes, edges, p.layers.height);
    HalvedGap(setting, Dummies(nodes), u, v);
  }

  lemma HalvedGap(setting: Setting, dummies: set<Id>, u: Id, v: Id)
    ensures Coordinates.LeastGap(Halved(setting), dummies, u, v) == Coordinates.LeastGap(setting, dummies, u, v)
    ensures Halved(setting).rankDir == setting.rankDir
  {
  }

  lemma NodeThere(core: Edges, us: set<Id>, nodes: Nodes, edges: Edges, u: Id)
    requires Represents(core, us, nodes, edges) && u in us
    ensures u in nodes
  {
  }

  lemma EmptyInput(input: InputGraph, nodes: Nodes, edges: Edges)
    requires |nodes| == 0 && nodes.Keys == input.nodes && input.Valid() && CopyOf(input, edges, input.edges.Keys, {})
    ensures SameStructure(input, nodes.Keys, edges)
  {
    assert nodes == map[];
    assert input.edges.Keys == {};
  }

  method RunStages(g: Digraph<NodeAttr, EdgeAttr>, input: InputGraph, maxSweeps: nat, restarts: nat, setting: Setting)
    returns (out: Digraph<NodeAttr, EdgeAttr>, picture: Picture)
    requires g.Valid() && input.Valid() && input.NoDummyNames() && CopyOf(input, g.edges, input.edges.Keys, {}) && Issued(g.edges, g.nextId)
    requires g.nodes == (map u | u in input.nodes :: NodeAttr(None, 0)) && input.nodes != {}
    modifies g
    ensures fresh(out) && out.Valid() && SameStructure(input, out.nodes.Keys, out.edges)
    ensures PictureOf(input, picture, maxSweeps, restarts, setting)
  {
    hide *;
    DoubleMinLen(g, input);
    ghost var core0 := g.edges;
    g.Ends();
    StartsLooped(input, g.nodes, g.edges, g.nextId);
    ghost var core, loops, parts := RankRun(g, input.nodes);
    ghost var nodes0, edges0 := g.nodes, g.edges;
    Normalize(g, core, input.nodes);
    DrawnOutSo(core, input.nodes, nodes0, edges0, loops, parts, g.nodes, g.edges);
    g.Ends();
    ghost var u :| u in input.nodes;
    NodeThere(core, input.nodes, g.nodes, g.edges, u);
    picture := Draw(g.nodes, g.edges, maxSweeps, restarts, Halved(setting));
    PictureIs(input, core0, core, g.nodes, g.edges, picture, maxSweeps, restarts, setting);
    UndoNormalize(g, core, input.nodes);
    UprightFlipped(core0, core);
    Undo(g);
    out := CreateFinalGraph(g, input);
  }

  lemma PictureIs(input: InputGraph, copy: Edges, core: Edges, nodes: Nodes, edges: Edges, p: Picture, maxSweeps: nat, restarts: nat, setting: Setting)
    requires CopyOf(input, copy, input.edges.Keys, copy.Keys) && SomeFlipped(copy, core)
    requires Represents(core, input.nodes, nodes, edges) && DrawnOut(core, input.nodes, nodes, edges)
    requires Shows(p, nodes, edges, maxSweeps, restarts, Halved(setting))
    ensures PictureOf(input, p, maxSweeps, restarts, setting)
  {
    hide CopyOf, SomeFlipped, Shows, Represents, DrawnOut, Halved;
  }

  lemma StartsLooped(input: InputGraph, nodes: Nodes, edges: Edges, nextId: nat)
    requires input.NoDummyNames() && CopyOf(input, edges, input.edges.Keys, edges.Keys) && Issued(edges, nextId) && EndsIn(edges, nodes.Keys)
    requires nodes == map u | u in input.nodes :: NodeAttr(None, 0)
    ensures Looped(edges, input.nodes, nodes, edges, nextId, {})
    ensures NoneReversed(edges) && LensPositive(edges)
  {
    forall e | e in edges ensures !edges[e].value.reversed && 1 <= edges[e].value.minLen {
      assert Copies(input, edges, e, true);
    }
    hide CopyOf;
  }
}
