/** Ranking the acyclic layout graph: first ranks, then a tight tree in every component. */
module LayoutRanks {
  import opened Base
  import opened Digraphs
  import opened Acyclics
  import opened TopSorts
  import opened TightTrees
  import opened LayoutGraphs

  /** The edges with both ends in c. */
  function Within(edges: Edges, c: set<Id>): Edges {
    map e | e in edges && edges[e].u in c && edges[e].v in c :: edges[e]
  }

  /** Every component is spanned by tight edges. */
  ghost predicate TightComponents(edges: Edges, rank: map<Id, int>, parts: seq<set<Id>>, n: nat) {
    forall i :: 0 <= i < n && i < |parts| ==> HasTightTree(edges, rank, parts[i])
  }

  ghost predicate HasTightTree(edges: Edges, rank: map<Id, int>, c: set<Id>) {
    exists links :: TightSpanningTree(Within(edges, c), c, rank, links)
  }

  /** The ranking while the components up to i are done: the others still have their first ranks. */
  ghost predicate Ranking(nodes: set<Id>, edges: Edges, rank0: map<Id, int>, rank: map<Id, int>, parts: seq<set<Id>>, i: nat)
  {
    && rank0.Keys == rank.Keys == nodes && Feasible(edges, rank)
    && AllHang(nodes, edges, rank0)
    && (forall j, v :: i <= j < |parts| && v in parts[j] && v in nodes ==> rank[v] == rank0[v])
    && TightComponents(edges, rank, parts, i)
  }

  /** The ranks of c begin with zero. */
  ghost predicate FromZero(rank: map<Id, int>, c: set<Id>) {
    && (forall u :: u in c ==> u in rank && rank[u] >= 0)
    && exists u :: u in c && u in rank && rank[u] == 0
  }

  ghost predicate ZeroBased(rank: map<Id, int>, parts: seq<set<Id>>, n: nat) {
    forall i :: 0 <= i < n && i < |parts| ==> FromZero(rank, parts[i])
  }

  method RankGraph(nodes: set<Id>, edges: Edges) returns (rank: map<Id, int>, ghost parts: seq<set<Id>>)
    requires EndsIn(edges, nodes) && IsAcyclic(edges) && NoSelfLoops(edges)
    ensures rank.Keys == nodes && Feasible(edges, rank)
    ensures AreComponents(edges, parts, nodes) && TightComponents(edges, rank, parts, |parts|) && ZeroBased(rank, parts, |parts|)
  {
    hide *;
    rank := InitRank(nodes, edges);
    ghost var rank0 := rank;
    var cs := Components(nodes, edges);
    parts := cs;
    RankingStarts(nodes, edges, rank, cs);
    NoneBased(rank, cs);
    for i := 0 to |cs|
      invariant Ranking(nodes, edges, rank0, rank, cs, i) && ZeroBased(rank, cs, i)
    {
      ReadyForTree(nodes, edges, rank0, rank, cs, i);
      ghost var before := rank;
      var tree;
      tree, rank := FeasibleTree(Within(edges, cs[i]), cs[i], rank);
      OnlyInside(before, rank, cs[i]);
      var m := MinRankOf(cs[i], rank);
      ComponentDone(nodes, edges, rank0, before, rank, cs, i, tree, m);
      Part(edges, cs, nodes, i);
      OneBased(before, rank, cs, i, m);
      rank := Lowered(rank, cs[i], m);
    }
    RankingEnds(nodes, edges, rank0, rank, cs);
  }

  lemma NoneBased(rank: map<Id, int>, parts: seq<set<Id>>)
    ensures ZeroBased(rank, parts, 0)
  {
  }

  /** Lowering a component to zero. */
  lemma OneBased(before: map<Id, int>, rank: map<Id, int>, parts: seq<set<Id>>, i: nat, m: int)
    requires i < |parts| && Apart(parts, i) && ZeroBased(before, parts, i) && SameOutside(before, rank, parts[i]) && parts[i] <= rank.Keys
    requires (exists u :: u in parts[i] && rank[u] == m) && forall u :: u in parts[i] ==> m <= rank[u]
    ensures ZeroBased(Lowered(rank, parts[i], m), parts, i + 1)
  {
    var rank' := Lowered(rank, parts[i], m);
    forall j | 0 <= j < i + 1 ensures FromZero(rank', parts[j]) {
      if j < i {
        assert FromZero(before, parts[j]) && parts[j] !! parts[i];
        var u :| u in parts[j] && u in before && before[u] == 0;
        assert rank'[u] == 0;
      } else {
        var u :| u in parts[i] && rank[u] == m;
        assert rank'[u] == 0;
      }
    }
  }

  ghost predicate Apart(parts: seq<set<Id>>, i: nat) {
    forall j :: 0 <= j < |parts| && j != i && i < |parts| ==> parts[j] !! parts[i]
  }

  ghost predicate SameOutside(before: map<Id, int>, rank: map<Id, int>, c: set<Id>) {
    rank.Keys == before.Keys && forall x :: x in before && x !in c ==> rank[x] == before[x]
  }

  method MinRankOf(c: set<Id>, rank: map<Id, int>) returns (m: int)
    requires c != {} && c <= rank.Keys
    ensures (exists u :: u in c && rank[u] == m) && forall u :: u in c ==> m <= rank[u]
  {
    var us := Listing(c);
    UptoEnds(us, c);
    assert us[0] in us;
    m := rank[us[0]];
    for i := 0 to |us|
      invariant (exists u :: u in c && rank[u] == m) && forall u :: u in Upto(us, i) ==> u in c && m <= rank[u]
    {
      UptoStep(us, c, i);
      if rank[us[i]] < m {
        m := rank[us[i]];
      }
    }
  }

  lemma OnlyInside(before: map<Id, int>, rank: map<Id, int>, c: set<Id>)
    requires rank.Keys == before.Keys && forall x :: x in before && x !in c ==> rank[x] == before[x]
    ensures SameOutside(before, rank, c)
  {
  }

  lemma RankingStarts(nodes: set<Id>, edges: Edges, rank: map<Id, int>, parts: seq<set<Id>>)
    requires rank.Keys == nodes && Feasible(edges, rank) && AllHang(nodes, edges, rank)
    ensures Ranking(nodes, edges, rank, rank, parts, 0)
  {
    hide Feasible, HangsTight;
  }

  lemma RankingEnds(nodes: set<Id>, edges: Edges, rank0: map<Id, int>, rank: map<Id, int>, parts: seq<set<Id>>)
    requires Ranking(nodes, edges, rank0, rank, parts, |parts|)
    ensures rank.Keys == nodes && Feasible(edges, rank) && TightComponents(edges, rank, parts, |parts|)
  {
    hide Feasible, HangsTight;
  }

  /** A component meets what the tight tree asks for. */
  lemma ReadyForTree(nodes: set<Id>, edges: Edges, rank0: map<Id, int>, rank: map<Id, int>, parts: seq<set<Id>>, i: nat)
    requires EndsIn(edges, nodes) && NoSelfLoops(edges) && AreComponents(edges, parts, nodes) && i < |parts|
    requires Ranking(nodes, edges, rank0, rank, parts, i)
    ensures var c := parts[i];
            && EndsIn(Within(edges, c), c) && NoSelfLoops(Within(edges, c)) && Feasible(Within(edges, c), rank)
            && c <= rank.Keys && c != {} && Connected(Pairs(Within(edges, c)), c)
            && (|c| > 1 ==> SomeTight(Within(edges, c), rank))
  {
    hide *;
    var c := parts[i];
    Part(edges, parts, nodes, i);
    StillFirst(nodes, edges, rank0, rank, parts, i);
    RestrictFacts(nodes, edges, rank, c);
    ConnectedWithin(edges, c);
    if |c| > 1 {
      TightWithin(edges, rank0, rank, c);
    }
  }

  lemma Part(edges: Edges, parts: seq<set<Id>>, covered: set<Id>, i: nat)
    requires AreComponents(edges, parts, covered) && i < |parts|
    ensures parts[i] != {} && parts[i] <= covered && Connected(Pairs(edges), parts[i]) && Separate(edges, parts[i])
    ensures Apart(parts, i)
  {
    hide Connected, Separate;
  }

  lemma StillFirst(nodes: set<Id>, edges: Edges, rank0: map<Id, int>, rank: map<Id, int>, parts: seq<set<Id>>, i: nat)
    requires i < |parts| && Ranking(nodes, edges, rank0, rank, parts, i) && parts[i] <= nodes
    ensures rank0.Keys == nodes && rank.Keys == nodes && Feasible(edges, rank)
    ensures forall v :: v in parts[i] ==> rank[v] == rank0[v]
    ensures AllHang(parts[i], edges, rank0)
  {
    hide HangsTight, Feasible, TightComponents;
  }

  lemma RestrictFacts(nodes: set<Id>, edges: Edges, rank: map<Id, int>, c: set<Id>)
    requires EndsIn(edges, nodes) && NoSelfLoops(edges) && Feasible(edges, rank)
    ensures EndsIn(Within(edges, c), c) && NoSelfLoops(Within(edges, c)) && Feasible(Within(edges, c), rank)
  {
  }

  lemma ConnectedWithin(edges: Edges, c: set<Id>)
    requires Connected(Pairs(edges), c)
    ensures Connected(Pairs(Within(edges, c)), c)
  {
    forall s | s <= c && s != {} && s != c ensures Crossed(Pairs(Within(edges, c)), s, c) {
      assert Crossed(Pairs(edges), s, c);
      var p :| p in Pairs(edges) && ((p.0 in s && p.1 in c - s) || (p.1 in s && p.0 in c - s));
      var e :| e in edges && p == (edges[e].u, edges[e].v);
      assert e in Within(edges, c);
      assert p in Pairs(Within(edges, c));
    }
  }

  /** In a component with an edge, the edge's head hangs on a tight in-edge. */
  lemma TightWithin(edges: Edges, rank0: map<Id, int>, rank: map<Id, int>, c: set<Id>)
    requires Separate(edges, c) && |c| > 1 && Connected(Pairs(Within(edges, c)), c) && c <= rank.Keys && c <= rank0.Keys
    requires forall v :: v in c ==> rank[v] == rank0[v]
    requires AllHang(c, edges, rank0)
    ensures SomeTight(Within(edges, c), rank)
  {
    var x :| x in c;
    assert {x} != c;
    assert Crossed(Pairs(Within(edges, c)), {x}, c);
    var p :| p in Pairs(Within(edges, c)) && ((p.0 in {x} && p.1 in c - {x}) || (p.1 in {x} && p.0 in c - {x}));
    var f :| f in Within(edges, c) && p == (edges[f].u, edges[f].v);
    var v := edges[f].v;
    assert HangsTight(edges, rank0, v);
    assert edges[f].u in Preds(edges, v);
    var e :| e in edges && edges[e].v == v && edges[e].u in rank0 && rank0[v] == rank0[edges[e].u] + edges[e].value.minLen;
    assert e in Within(edges, c);
    assert TightEdge(Within(edges, c), rank, e);
  }

  function Lowered(rank: map<Id, int>, c: set<Id>, m: int): map<Id, int> {
    map x | x in rank :: if x in c then rank[x] - m else rank[x]
  }

  /** Finishing one component disturbs no other. */
  lemma ComponentDone(nodes: set<Id>, edges: Edges, rank0: map<Id, int>, before: map<Id, int>, rank: map<Id, int>, parts: seq<set<Id>>, i: nat,
      links: seq<Link>, m: int)
    requires EndsIn(edges, nodes) && AreComponents(edges, parts, nodes) && i < |parts| && Ranking(nodes, edges, rank0, before, parts, i)
    requires SameOutside(before, rank, parts[i]) && TightSpanningTree(Within(edges, parts[i]), parts[i], rank, links)
    ensures Ranking(nodes, edges, rank0, Lowered(rank, parts[i], m), parts, i + 1)
  {
    hide *;
    var rank' := Lowered(rank, parts[i], m);
    Part(edges, parts, nodes, i);
    RankingFacts(nodes, edges, rank0, before, parts, i);
    FeasibleJoins(edges, before, rank, parts[i], links, m);
    LoweredElsewhere(before, rank, parts[i], m);
    forall j | 0 <= j < i + 1 ensures HasTightTree(edges, rank', parts[j]) {
      if j == i {
        TreeLowered(edges, rank, parts[i], links, m);
      } else {
        TreeAt(edges, before, parts, i, j);
        SameOnOther(before, rank', parts, i, j);
        TreeElsewhere(edges, before, rank', parts[j]);
      }
    }
    AllTrees(edges, rank', parts, i + 1);
    IsRanking(nodes, edges, rank0, before, rank', parts, i, parts[i], i + 1);
  }

  lemma RankingFacts(nodes: set<Id>, edges: Edges, rank0: map<Id, int>, rank: map<Id, int>, parts: seq<set<Id>>, i: nat)
    requires i <= |parts| && Ranking(nodes, edges, rank0, rank, parts, i)
    ensures rank.Keys == nodes && Feasible(edges, rank) && TightComponents(edges, rank, parts, i)
  {
    hide Feasible, TightComponents, HangsTight;
  }

  lemma LoweredElsewhere(before: map<Id, int>, rank: map<Id, int>, c: set<Id>, m: int)
    requires SameOutside(before, rank, c)
    ensures SameOutside(before, Lowered(rank, c, m), c)
  {
  }

  lemma SameOnOther(before: map<Id, int>, rank: map<Id, int>, parts: seq<set<Id>>, i: nat, j: nat)
    requires i < |parts| && j < |parts| && i != j && SameOutside(before, rank, parts[i]) && Apart(parts, i)
    ensures SameOn(before, rank, parts[j])
  {
  }

  ghost predicate SameOn(before: map<Id, int>, rank: map<Id, int>, c: set<Id>) {
    rank.Keys == before.Keys && forall x :: x in c && x in before ==> rank[x] == before[x]
  }

  lemma IsRanking(nodes: set<Id>, edges: Edges, rank0: map<Id, int>, before: map<Id, int>, rank: map<Id, int>, parts: seq<set<Id>>, i: nat, c: set<Id>, n: nat)
    requires n == i + 1 <= |parts| && c == parts[i]
    requires SameOutside(before, rank, c) && Apart(parts, i) && Feasible(edges, rank)
    requires Ranking(nodes, edges, rank0, before, parts, i) && TightComponents(edges, rank, parts, n)
    ensures Ranking(nodes, edges, rank0, rank, parts, n)
  {
    hide HangsTight, Feasible, TightComponents;
  }

  lemma TreeAt(edges: Edges, rank: map<Id, int>, parts: seq<set<Id>>, n: nat, j: nat)
    requires n <= |parts| && TightComponents(edges, rank, parts, n) && j < n
    ensures HasTightTree(edges, rank, parts[j])
  {
  }

  lemma AllTrees(edges: Edges, rank: map<Id, int>, parts: seq<set<Id>>, n: nat)
    requires n <= |parts| && forall j :: 0 <= j < n ==> HasTightTree(edges, rank, parts[j])
    ensures TightComponents(edges, rank, parts, n)
  {
  }

  lemma FeasibleJoins(edges: Edges, before: map<Id, int>, rank: map<Id, int>, c: set<Id>, links: seq<Link>, m: int)
    requires Feasible(edges, before) && SameOutside(before, rank, c)
    requires TightSpanningTree(Within(edges, c), c, rank, links) && Separate(edges, c)
    ensures Feasible(edges, Lowered(rank, c, m))
  {
    hide *;
    TreeFeasible(Within(edges, c), c, rank, links);
    BothFeasible(edges, before, rank, c, m);
  }

  lemma TreeFeasible(edges: Edges, c: set<Id>, rank: map<Id, int>, links: seq<Link>)
    requires TightSpanningTree(edges, c, rank, links)
    ensures Feasible(edges, rank)
  {
    hide Feasible, Connected, TightPair;
  }

  lemma BothFeasible(edges: Edges, before: map<Id, int>, rank: map<Id, int>, c: set<Id>, m: int)
    requires Feasible(edges, before) && SameOutside(before, rank, c) && Feasible(Within(edges, c), rank) && Separate(edges, c)
    ensures Feasible(edges, Lowered(rank, c, m))
  {
    hide *;
    forall e | e in edges ensures LongEnough(edges, Lowered(rank, c, m), e) {
      EdgeFeasible(edges, before, rank, c, m, e);
    }
    AllLongEnough(edges, Lowered(rank, c, m));
  }

  ghost predicate LongEnough(edges: Edges, rank: map<Id, int>, e: Id) {
    && e in edges && edges[e].u in rank && edges[e].v in rank
    && rank[edges[e].v] - rank[edges[e].u] >= edges[e].value.minLen
  }

  lemma AllLongEnough(edges: Edges, rank: map<Id, int>)
    requires forall e :: e in edges ==> LongEnough(edges, rank, e)
    ensures Feasible(edges, rank)
  {
  }

  lemma EdgeFeasible(edges: Edges, before: map<Id, int>, rank: map<Id, int>, c: set<Id>, m: int, e: Id)
    requires Feasible(edges, before) && SameOutside(before, rank, c) && Feasible(Within(edges, c), rank) && Separate(edges, c)
    requires e in edges
    ensures LongEnough(edges, Lowered(rank, c, m), e)
  {
    if edges[e].u in c {
      assert e in Within(edges, c) && Within(edges, c)[e] == edges[e];
    }
  }

  lemma TreeLowered(edges: Edges, rank: map<Id, int>, c: set<Id>, links: seq<Link>, m: int)
    requires TightSpanningTree(Within(edges, c), c, rank, links)
    ensures HasTightTree(edges, Lowered(rank, c, m), c)
  {
    var w, rank' := Within(edges, c), Lowered(rank, c, m);
    hide Connected;
    forall l | l in links ensures TightPair(w, rank', l.u, l.v) {
      assert TightPair(w, rank, l.u, l.v);
      var e :| TightEdge(w, rank, e) && w[e].u == l.u && w[e].v == l.v;
      assert TightEdge(w, rank', e);
    }
    assert TightSpanningTree(w, c, rank', links);
  }

  lemma TreeElsewhere(edges: Edges, rank: map<Id, int>, rank': map<Id, int>, c: set<Id>)
    requires HasTightTree(edges, rank, c) && SameOn(rank, rank', c)
    ensures HasTightTree(edges, rank', c)
  {
    var w := Within(edges, c);
    var links: seq<Link> :| TightSpanningTree(w, c, rank, links);
    hide Connected;
    forall l | l in links ensures TightPair(w, rank', l.u, l.v) {
      assert TightPair(w, rank, l.u, l.v);
      var e :| TightEdge(w, rank, e) && w[e].u == l.u && w[e].v == l.v;
      assert TightEdge(w, rank', e);
    }
    assert TightSpanningTree(w, c, rank', links);
  }

  // ---------- the edges of an expanded self loop are tight ----------

  /** The tree has a tight edge between s and the rest of the component. */
  lemma TreeCrosses(edges: Edges, rank: map<Id, int>, c: set<Id>, s: set<Id>) returns (e: Id)
    requires HasTightTree(edges, rank, c) && s <= c && s != {} && s != c
    ensures TightEdge(edges, rank, e) && (edges[e].u in s) != (edges[e].v in s)
  {
    var w := Within(edges, c);
    var links: seq<Link> :| TightSpanningTree(w, c, rank, links);
    assert Crossed(LinkPairs(links), s, c);
    var p :| p in LinkPairs(links) && ((p.0 in s && p.1 in c - s) || (p.1 in s && p.0 in c - s));
    var l :| l in links && p == (l.u, l.v);
    assert TightPair(w, rank, l.u, l.v);
    e :| TightEdge(w, rank, e) && w[e].u == l.u && w[e].v == l.v;
  }

  /** Any two of the four edges separate the loop's dummies from the rest or from each other, so a
      spanning tree uses three of them, and then all four are tight. */
  lemma TightLoop(nodes: Nodes, edges: Edges, rank: map<Id, int>, c: set<Id>, l: Loop)
    requires LoopIn(nodes, edges, l) && HasTightTree(edges, rank, c) && Separate(edges, c) && l.u in c
    ensures TightEdge(edges, rank, l.xu) && TightEdge(edges, rank, l.xy) && TightEdge(edges, rank, l.uz) && TightEdge(edges, rank, l.yz)
  {
    hide *;
    LoopInside(nodes, edges, c, l);
    var e1 := TreeCrosses(edges, rank, c, {l.x});
    var e2 := TreeCrosses(edges, rank, c, {l.y});
    var e3 := TreeCrosses(edges, rank, c, {l.z});
    var e4 := TreeCrosses(edges, rank, c, {l.x, l.y});
    var e5 := TreeCrosses(edges, rank, c, {l.y, l.z});
    var e6 := TreeCrosses(edges, rank, c, {l.x, l.y, l.z});
    TightEdgeIn(edges, rank, e1); TightEdgeIn(edges, rank, e2); TightEdgeIn(edges, rank, e3);
    TightEdgeIn(edges, rank, e4); TightEdgeIn(edges, rank, e5); TightEdgeIn(edges, rank, e6);
    CutsOfLoop(nodes, edges, l, e1, e2, e3, e4, e5, e6);
    ThreeOfFour(nodes, edges, rank, l);
  }

  lemma TightEdgeIn(edges: Edges, rank: map<Id, int>, e: Id)
    requires TightEdge(edges, rank, e)
    ensures e in edges
  {
  }

  lemma LoopInside(nodes: Nodes, edges: Edges, c: set<Id>, l: Loop)
    requires LoopIn(nodes, edges, l) && Separate(edges, c) && l.u in c
    ensures l.u != l.x && l.u != l.y && l.u != l.z && l.x in c && l.y in c && l.z in c
  {
  }

  /** The edges that leave each set of dummies of a loop. */
  lemma CutsOfLoop(nodes: Nodes, edges: Edges, l: Loop, e1: Id, e2: Id, e3: Id, e4: Id, e5: Id, e6: Id)
    requires LoopIn(nodes, edges, l)
    requires e1 in edges && e2 in edges && e3 in edges && e4 in edges && e5 in edges && e6 in edges
    requires (edges[e1].u in {l.x}) != (edges[e1].v in {l.x})
    requires (edges[e2].u in {l.y}) != (edges[e2].v in {l.y})
    requires (edges[e3].u in {l.z}) != (edges[e3].v in {l.z})
    requires (edges[e4].u in {l.x, l.y}) != (edges[e4].v in {l.x, l.y})
    requires (edges[e5].u in {l.y, l.z}) != (edges[e5].v in {l.y, l.z})
    requires (edges[e6].u in {l.x, l.y, l.z}) != (edges[e6].v in {l.x, l.y, l.z})
    ensures (e1 == l.xu || e1 == l.xy) && (e2 == l.xy || e2 == l.yz) && (e3 == l.uz || e3 == l.yz)
    ensures (e4 == l.xu || e4 == l.yz) && (e5 == l.xy || e5 == l.uz) && (e6 == l.xu || e6 == l.uz)
  {
    assert l.u != l.x && l.u != l.y && l.u != l.z;
    hide Recorded, Plain;
  }

  /** When of any two of the four edges one is tight, all are. */
  lemma ThreeOfFour(nodes: Nodes, edges: Edges, rank: map<Id, int>, l: Loop)
    requires LoopIn(nodes, edges, l)
    requires TightEdge(edges, rank, l.xu) || TightEdge(edges, rank, l.xy)
    requires TightEdge(edges, rank, l.xy) || TightEdge(edges, rank, l.yz)
    requires TightEdge(edges, rank, l.uz) || TightEdge(edges, rank, l.yz)
    requires TightEdge(edges, rank, l.xu) || TightEdge(edges, rank, l.yz)
    requires TightEdge(edges, rank, l.xy) || TightEdge(edges, rank, l.uz)
    requires TightEdge(edges, rank, l.xu) || TightEdge(edges, rank, l.uz)
    ensures TightEdge(edges, rank, l.xu) && TightEdge(edges, rank, l.xy) && TightEdge(edges, rank, l.uz) && TightEdge(edges, rank, l.yz)
  {
    hide Recorded, Plain, LoopAlone;
  }

  /** So every edge at a dummy has length one. */
  lemma LoopsShort(core: Edges, orig: set<Id>, nodes: Nodes, edges: Edges, nextId: nat, loops: set<Loop>, rank: map<Id, int>, parts: seq<set<Id>>, e: Id)
    requires Looped(core, orig, nodes, edges, nextId, loops) && AreComponents(edges, parts, nodes.Keys)
    requires TightComponents(edges, rank, parts, |parts|) && rank.Keys == nodes.Keys
    requires e in edges && e !in core && edges[e].u in rank && edges[e].v in rank
    ensures rank[edges[e].v] - rank[edges[e].u] == 1
  {
    hide *;
    var l := LoopOf(core, orig, nodes, edges, nextId, loops, e);
    var i := PartOf(edges, parts, nodes.Keys, l.u);
    Part(edges, parts, nodes.Keys, i);
    TreeAt(edges, rank, parts, |parts|, i);
    TightLoop(nodes, edges, rank, parts[i], l);
    TightHelper(nodes, edges, rank, l, e);
  }

  lemma LoopOf(core: Edges, orig: set<Id>, nodes: Nodes, edges: Edges, nextId: nat, loops: set<Loop>, e: Id) returns (l: Loop)
    requires Looped(core, orig, nodes, edges, nextId, loops) && e in edges && e !in core
    ensures LoopEdge(e, l) && LoopIn(nodes, edges, l) && l.u in nodes
  {
    hide *;
    LoopedParts(core, orig, nodes, edges, nextId, loops);
    l := HelperLoop(core, edges, loops, e);
    LoopAt(nodes, edges, loops, l);
  }

  lemma HelperLoop(core: Edges, edges: Edges, loops: set<Loop>, e: Id) returns (l: Loop)
    requires HelpersOf(core, edges, loops) && e in edges && e !in core
    ensures l in loops && LoopEdge(e, l)
  {
    l :| l in loops && LoopEdge(e, l);
  }

  lemma LoopAt(nodes: Nodes, edges: Edges, loops: set<Loop>, l: Loop)
    requires LoopsIn(nodes, edges, loops) && l in loops
    ensures LoopIn(nodes, edges, l) && l.u in nodes
  {
    hide LoopEdges, LoopAlone, DummiesOf;
  }

  lemma PartOf(edges: Edges, parts: seq<set<Id>>, covered: set<Id>, u: Id) returns (i: nat)
    requires AreComponents(edges, parts, covered) && u in covered
    ensures i < |parts| && u in parts[i]
  {
    hide Connected, Separate;
    i :| 0 <= i < |parts| && u in parts[i];
  }

  lemma TightHelper(nodes: Nodes, edges: Edges, rank: map<Id, int>, l: Loop, e: Id)
    requires LoopIn(nodes, edges, l) && LoopEdge(e, l) && e in edges && edges[e].u in rank && edges[e].v in rank
    requires TightEdge(edges, rank, l.xu) && TightEdge(edges, rank, l.xy) && TightEdge(edges, rank, l.uz) && TightEdge(edges, rank, l.yz)
    ensures rank[edges[e].v] - rank[edges[e].u] == 1
  {
    hide LoopAlone, Recorded, Plain;
  }
}
