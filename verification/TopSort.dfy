/** Topological sorting from the sinks, the acyclicity test built on it, and the first ranking. */
module TopSorts {
  import opened Base
  import opened Digraphs
  import opened Acyclics

  function Preds(edges: Edges, v: Id): set<Id> {
    set e | e in edges && edges[e].v == v :: edges[e].u
  }

  function Sinks(nodes: set<Id>, edges: Edges): set<Id> {
    set u | u in nodes && forall e :: e in edges ==> edges[e].u != u
  }

  /** A nonempty chain leads from u to v. */
  ghost predicate Follows(edges: Edges, u: Id, v: Id) {
    exists e :: e in edges && edges[e].u == u && Leads(edges, edges[e].v, v)
  }

  /** A cycle from which v can be reached. */
  ghost predicate CycleAbove(edges: Edges, v: Id) {
    exists x :: Follows(edges, x, x) && Leads(edges, x, v)
  }

  lemma FollowsLeads(edges: Edges, u: Id, v: Id)
    requires Follows(edges, u, v)
    ensures Leads(edges, u, v)
  {
    var e :| e in edges && edges[e].u == u && Leads(edges, edges[e].v, v);
    var p :| Chain(edges, edges[e].v, p, v);
    assert ([e] + p)[1..] == p;
    assert Chain(edges, u, [e] + p, v);
  }

  lemma EdgeLeads(edges: Edges, e: Id, w: Id)
    requires e in edges && Leads(edges, edges[e].v, w)
    ensures Follows(edges, edges[e].u, w) && Leads(edges, edges[e].u, w)
  {
    FollowsLeads(edges, edges[e].u, w);
  }

  /** A graph is acyclic exactly when no node follows itself. */
  lemma AcyclicMeans(edges: Edges)
    ensures IsAcyclic(edges) <==> forall x :: !Follows(edges, x, x)
  {
    if x :| Follows(edges, x, x) {
      var e :| e in edges && edges[e].u == x && Leads(edges, edges[e].v, x);
      var p :| Chain(edges, edges[e].v, p, x);
      assert ([e] + p)[1..] == p;
      assert Chain(edges, x, [e] + p, x);
    }
    if u, es :| Chain(edges, u, es, u) && es != [] {
      assert Chain(edges, edges[es[0]].v, es[1..], u);
      assert Leads(edges, edges[es[0]].v, u);
      assert edges[es[0]].u == u && Follows(edges, u, u);
    }
  }

  // ---------- topsort ----------

  /** Every edge into a listed node comes from a node listed before it. */
  ghost predicate Ordered(edges: Edges, results: seq<Id>) {
    forall i, e :: 0 <= i < |results| && e in edges && edges[e].v == results[i] ==> edges[e].u in results[..i]
  }

  ghost predicate Sorting(edges: Edges, visited: set<Id>, stack: set<Id>, results: seq<Id>) {
    && NoDup(results) && Ordered(edges, results)
    && (forall x :: x in visited <==> x in results || x in stack)
    && (forall x :: x in results ==> x !in stack)
  }

  /** Every open node lies ahead of u. */
  ghost predicate Ahead(edges: Edges, u: Id, stack: set<Id>) {
    forall s :: s in stack ==> Follows(edges, u, s)
  }

  lemma AheadStep(edges: Edges, p: Id, u: Id, stack: set<Id>)
    requires Ahead(edges, u, stack) && p in Preds(edges, u)
    ensures Ahead(edges, p, stack + {u})
  {
    var e :| e in edges && edges[e].v == u && edges[e].u == p;
    forall s | s in stack + {u} ensures Follows(edges, p, s) {
      if s in stack {
        FollowsLeads(edges, u, s);
      } else {
        LeadsSelf(edges, u);
      }
      EdgeLeads(edges, e, s);
    }
  }

  lemma CycleBelow(edges: Edges, p: Id, u: Id)
    requires CycleAbove(edges, p) && p in Preds(edges, u)
    ensures CycleAbove(edges, u)
  {
    var e :| e in edges && edges[e].v == u && edges[e].u == p;
    var x :| Follows(edges, x, x) && Leads(edges, x, p);
    LeadsSelf(edges, u);
    EdgeLeads(edges, e, u);
    LeadsOn(edges, x, p, u);
  }

  /** Appending a node whose predecessors are all listed. */
  lemma Append(edges: Edges, visited: set<Id>, stack: set<Id>, results: seq<Id>, u: Id)
    requires Sorting(edges, visited, stack + {u}, results) && u !in stack
    requires forall p :: p in Preds(edges, u) ==> p in results
    ensures Sorting(edges, visited, stack, results + [u])
  {
    var r := results + [u];
    forall i, e | 0 <= i < |r| && e in edges && edges[e].v == r[i] ensures edges[e].u in r[..i] {
      if i < |results| {
        assert r[..i] == results[..i];
      } else {
        assert r[..i] == results && edges[e].u in Preds(edges, u);
      }
    }
  }

  /** Everything that leads to a listed node is listed. */
  lemma {:induction false} UpwardClosed(edges: Edges, results: seq<Id>, u: Id, es: seq<Id>, v: Id)
    requires Ordered(edges, results) && v in results && Chain(edges, u, es, v)
    ensures u in results
    decreases |es|
  {
    if es != [] {
      UpwardClosed(edges, results, edges[es[0]].v, es[1..], v);
      var i :| 0 <= i < |results| && results[i] == edges[es[0]].v;
      assert edges[es[0]].u in results[..i];
    }
  }

  /** No cycle passes through a listed node: it would have to climb forever. */
  lemma {:induction false} Climbs(edges: Edges, results: seq<Id>, u: Id, es: seq<Id>, i: nat)
    requires NoDup(results) && Ordered(edges, results) && i < |results| && Chain(edges, u, es, results[i])
    ensures es != [] ==> u in results[..i]
    ensures u in results
    decreases |es|
  {
    if es != [] {
      Climbs(edges, results, edges[es[0]].v, es[1..], i);
      var v := edges[es[0]].v;
      if es[1..] == [] {
        assert v == results[i];
      } else {
        var j :| 0 <= j < i && results[j] == v;
        assert edges[es[0]].u in results[..j];
        assert forall x :: x in results[..j] ==> x in results[..i];
      }
    }
  }

  lemma NoCycleListed(edges: Edges, results: seq<Id>, v: Id)
    requires NoDup(results) && Ordered(edges, results) && v in results
    ensures !CycleAbove(edges, v)
  {
    if CycleAbove(edges, v) {
      var x :| Follows(edges, x, x) && Leads(edges, x, v);
      var es :| Chain(edges, x, es, v);
      UpwardClosed(edges, results, x, es, v);
      var i :| 0 <= i < |results| && results[i] == x;
      var e :| e in edges && edges[e].u == x && Leads(edges, edges[e].v, x);
      var fs :| Chain(edges, edges[e].v, fs, x);
      assert ([e] + fs)[1..] == fs;
      Climbs(edges, results, x, [e] + fs, i);
    }
  }

  /** Lists u after everything that leads to it; fails on meeting an open node. */
  method Visit(nodes: set<Id>, edges: Edges, u: Id, visited: set<Id>, stack: set<Id>, results: seq<Id>)
    returns (ok: bool, visited': set<Id>, results': seq<Id>)
    requires EndsIn(edges, nodes) && u in nodes && visited <= nodes && stack <= visited
    requires Sorting(edges, visited, stack, results) && Ahead(edges, u, stack)
    ensures visited <= visited' <= nodes
    ensures !ok ==> CycleAbove(edges, u)
    ensures ok ==> Sorting(edges, visited', stack, results') && u in results' && results <= results'
    ensures ok ==> forall x :: x in results' ==> x in results || Leads(edges, x, u)
    decreases nodes - visited
  {
    LeadsSelf(edges, u);
    if u in stack {
      return false, visited, results;
    }
    if u in visited {
      return true, visited, results;
    }
    visited', results' := visited + {u}, results;
    var preds := Listing(Preds(edges, u));
    PredsIn(edges, nodes, u);
    Pushed(edges, visited, stack, results, u);
    hide *;
    UptoEnds(preds, Preds(edges, u));
    for i := 0 to |preds|
      invariant visited + {u} <= visited' <= nodes
      invariant Sorting(edges, visited', stack + {u}, results') && results <= results'
      invariant forall p :: p in Upto(preds, i) ==> p in results'
      invariant forall x :: x in results' ==> x in results || Leads(edges, x, u)
    {
      UptoStep(preds, Preds(edges, u), i);
      AheadStep(edges, preds[i], u, stack);
      ghost var before := results';
      ok, visited', results' := Visit(nodes, edges, preds[i], visited', stack + {u}, results');
      if !ok {
        CycleBelow(edges, preds[i], u);
        return;
      }
      LeadsBelow(edges, preds[i], u, before, results, results');
    }
    Append(edges, visited', stack, results', u);
    results' := results' + [u];
    ok := true;
  }

  lemma PredsIn(edges: Edges, nodes: set<Id>, u: Id)
    requires EndsIn(edges, nodes)
    ensures Preds(edges, u) <= nodes
  {
  }

  lemma Pushed(edges: Edges, visited: set<Id>, stack: set<Id>, results: seq<Id>, u: Id)
    requires Sorting(edges, visited, stack, results) && u !in visited
    ensures Sorting(edges, visited + {u}, stack + {u}, results)
  {
  }

  lemma LeadsBelow(edges: Edges, p: Id, u: Id, middle: seq<Id>, start: seq<Id>, end: seq<Id>)
    requires p in Preds(edges, u)
    requires forall x :: x in middle ==> x in start || Leads(edges, x, u)
    requires forall x :: x in end ==> x in middle || Leads(edges, x, p)
    ensures forall x :: x in end ==> x in start || Leads(edges, x, u)
  {
    var e :| e in edges && edges[e].v == u && edges[e].u == p;
    LeadsSelf(edges, u);
    EdgeLeads(edges, e, u);
    forall x | x in end && x !in middle ensures Leads(edges, x, u) {
      LeadsOn(edges, x, p, u);
    }
  }

  /** The nodes that lead to a sink. */
  ghost predicate LeadsToSink(nodes: set<Id>, edges: Edges, x: Id) {
    exists s :: s in Sinks(nodes, edges) && Leads(edges, x, s)
  }

  method TopSort(nodes: set<Id>, edges: Edges) returns (r: Result<seq<Id>, string>)
    requires EndsIn(edges, nodes)
    ensures r.Err? <==> (nodes != {} && Sinks(nodes, edges) == {}) ||
                        exists s :: s in Sinks(nodes, edges) && CycleAbove(edges, s)
    ensures r.Ok? ==> NoDup(r.value) && Ordered(edges, r.value)
    ensures r.Ok? ==> forall x :: x in r.value <==> LeadsToSink(nodes, edges, x)
  {
    var sinks := Sinks(nodes, edges);
    if nodes != {} && sinks == {} {
      return Err("Graph has at least one cycle");
    }
    var visited: set<Id>, results: seq<Id>, ok := {}, [], true;
    var us := Listing(sinks);
    UptoEnds(us, sinks);
    Unsorted(edges);
    assert sinks <= nodes;
    hide *;
    for i := 0 to |us|
      invariant visited <= nodes && Sorting(edges, visited, {}, results)
      invariant forall s :: s in Upto(us, i) ==> s in results
      invariant forall x :: x in results ==> LeadsToSink(nodes, edges, x)
    {
      UptoStep(us, sinks, i);
      ghost var before := results;
      NothingAhead(edges, us[i]);
      ok, visited, results := Visit(nodes, edges, us[i], visited, {}, results);
      if !ok {
        return Err("Graph has at least one cycle");
      }
      ToSink(nodes, edges, us[i], before, results);
    }
    SortDone(nodes, edges, visited, results);
    r := Ok(results);
  }

  lemma Unsorted(edges: Edges)
    ensures Sorting(edges, {}, {}, [])
  {
  }

  lemma NothingAhead(edges: Edges, u: Id)
    ensures Ahead(edges, u, {})
  {
  }

  lemma ToSink(nodes: set<Id>, edges: Edges, s: Id, before: seq<Id>, results: seq<Id>)
    requires s in Sinks(nodes, edges)
    requires forall x :: x in before ==> LeadsToSink(nodes, edges, x)
    requires forall x :: x in results ==> x in before || Leads(edges, x, s)
    ensures forall x :: x in results ==> LeadsToSink(nodes, edges, x)
  {
  }

  lemma SortDone(nodes: set<Id>, edges: Edges, visited: set<Id>, results: seq<Id>)
    requires Sorting(edges, visited, {}, results) && forall s :: s in Sinks(nodes, edges) ==> s in results
    requires forall x :: x in results ==> LeadsToSink(nodes, edges, x)
    ensures NoDup(results) && Ordered(edges, results)
    ensures forall s :: s in Sinks(nodes, edges) ==> !CycleAbove(edges, s)
    ensures forall x :: x in results <==> LeadsToSink(nodes, edges, x)
  {
    hide Follows;
    forall s | s in Sinks(nodes, edges) ensures !CycleAbove(edges, s) {
      NoCycleListed(edges, results, s);
    }
    forall x | LeadsToSink(nodes, edges, x) ensures x in results {
      var s :| s in Sinks(nodes, edges) && Leads(edges, x, s);
      var es :| Chain(edges, x, es, s);
      UpwardClosed(edges, results, x, es, s);
    }
  }

  // ---------- acyclicity ----------

  /** In an acyclic graph every node leads to a sink: a walk along out-edges cannot return to the
      nodes it has seen. */
  lemma {:induction false} AcyclicLeadsToSink(nodes: set<Id>, edges: Edges, u: Id, seen: set<Id>)
    requires EndsIn(edges, nodes) && u in nodes && seen <= nodes && u !in seen
    requires forall x :: !Follows(edges, x, x)
    requires forall x :: x in seen ==> Follows(edges, x, u)
    ensures LeadsToSink(nodes, edges, u)
    decreases nodes - seen
  {
    LeadsSelf(edges, u);
    if e :| e in edges && edges[e].u == u {
      var v := edges[e].v;
      forall x | x in seen + {u} ensures Follows(edges, x, v) {
        LeadsSelf(edges, v);
        EdgeLeads(edges, e, v);
        if x in seen {
          var f :| f in edges && edges[f].u == x && Leads(edges, edges[f].v, u);
          LeadsOn(edges, edges[f].v, u, v);
        }
      }
      AcyclicLeadsToSink(nodes, edges, v, seen + {u});
      var s :| s in Sinks(nodes, edges) && Leads(edges, v, s);
      EdgeLeads(edges, e, s);
    } else {
      assert u in Sinks(nodes, edges);
    }
  }

  /** On an acyclic graph topsort does not fail and lists every node. */
  lemma SortComplete(nodes: set<Id>, edges: Edges)
    requires EndsIn(edges, nodes) && IsAcyclic(edges)
    ensures forall x :: x in nodes ==> LeadsToSink(nodes, edges, x)
    ensures forall s :: !CycleAbove(edges, s)
    ensures nodes != {} ==> Sinks(nodes, edges) != {}
  {
    AcyclicMeans(edges);
    forall x | x in nodes ensures LeadsToSink(nodes, edges, x) {
      AcyclicLeadsToSink(nodes, edges, x, {});
    }
    if x :| x in nodes {
      assert LeadsToSink(nodes, edges, x);
    }
  }

  /** isAcyclic answers by whether topsort succeeds. It is right except when there is a cycle, there
      is a sink, and no cycle leads to a sink. */
  method TestAcyclic(nodes: set<Id>, edges: Edges) returns (r: bool)
    requires EndsIn(edges, nodes)
    ensures r == IsAcyclic(edges) <==>
            !(!IsAcyclic(edges) && Sinks(nodes, edges) != {} &&
              forall s :: s in Sinks(nodes, edges) ==> !CycleAbove(edges, s))
  {
    var sorted := TopSort(nodes, edges);
    r := sorted.Ok?;
    if IsAcyclic(edges) {
      SortComplete(nodes, edges);
    }
  }

  /** A two-node cycle beside an isolated node is such a graph: topsort lists the isolated node and
      raises nothing. */
  lemma CycleMissed(a: Id, b: Id, c: Id, e: Id, f: Id, w: EdgeAttr)
    requires a != b && b != c && a != c && e != f
    ensures var edges := map[e := Edge(a, b, w), f := Edge(b, a, w)];
            && EndsIn(edges, {a, b, c}) && !IsAcyclic(edges)
            && Sinks({a, b, c}, edges) == {c} && !CycleAbove(edges, c)
  {
    var edges := map[e := Edge(a, b, w), f := Edge(b, a, w)];
    assert Chain(edges, a, [], a);
    assert [f][1..] == [] && Chain(edges, b, [f], a);
    assert [e, f][1..] == [f] && Chain(edges, a, [e, f], a);
    assert Preds(edges, c) == {};
    assert c in Sinks({a, b, c}, edges);
    if CycleAbove(edges, c) {
      var x :| Follows(edges, x, x) && Leads(edges, x, c);
      var es :| Chain(edges, x, es, c);
      UpwardClosed(edges, [c], x, es, c);
    }
  }

  // ---------- initRank ----------

  /** Every edge is at least as long as its minimum. */
  ghost predicate Feasible(edges: Edges, rank: map<Id, int>) {
    forall e :: e in edges ==>
      edges[e].u in rank && edges[e].v in rank && rank[edges[e].v] - rank[edges[e].u] >= edges[e].value.minLen
  }

  /** Sources rank 0 and every other node hangs on a tight in-edge. */
  ghost predicate HangsTight(edges: Edges, rank: map<Id, int>, v: Id) {
    v in rank &&
    if Preds(edges, v) == {} then rank[v] == 0
    else exists e :: e in edges && edges[e].v == v && edges[e].u in rank &&
                     rank[v] == rank[edges[e].u] + edges[e].value.minLen
  }

  ghost predicate AllHang(nodes: set<Id>, edges: Edges, rank: map<Id, int>) {
    forall v {:trigger HangsTight(edges, rank, v)} :: v in nodes ==> HangsTight(edges, rank, v)
  }

  /** The nodes listed so far are ranked. */
  ghost predicate RankedUpTo(edges: Edges, sorted: seq<Id>, i: nat, rank: map<Id, int>)
    requires i <= |sorted|
  {
    && (forall v :: v in rank <==> v in sorted[..i])
    && (forall v :: v in rank ==> HangsTight(edges, rank, v))
    && (forall e :: e in edges && edges[e].v in rank ==>
          edges[e].u in rank && rank[edges[e].v] - rank[edges[e].u] >= edges[e].value.minLen)
  }

  method MaxRank(edges: Edges, v: Id, rank: map<Id, int>) returns (m: int)
    requires Preds(edges, v) != {} && forall e :: e in edges && edges[e].v == v ==> edges[e].u in rank
    ensures exists e :: e in edges && edges[e].v == v && m == rank[edges[e].u] + edges[e].value.minLen
    ensures forall e :: e in edges && edges[e].v == v ==> rank[edges[e].u] + edges[e].value.minLen <= m
  {
    var inEdges := set e | e in edges && edges[e].v == v;
    ghost var p :| p in Preds(edges, v);
    ghost var e1 :| e1 in edges && edges[e1].v == v && edges[e1].u == p;
    assert e1 in inEdges;
    hide *;
    var es := Listing(inEdges);
    UptoEnds(es, inEdges);
    ListsSome(es, inEdges, e1);
    ghost var best := es[0];
    m := rank[edges[es[0]].u] + edges[es[0]].value.minLen;
    for i := 0 to |es|
      invariant best in inEdges && m == rank[edges[best].u] + edges[best].value.minLen
      invariant forall e :: e in Upto(es, i) ==> e in inEdges && rank[edges[e].u] + edges[e].value.minLen <= m
    {
      UptoStep(es, inEdges, i);
      var e := es[i];
      if m < rank[edges[e].u] + edges[e].value.minLen {
        best, m := e, rank[edges[e].u] + edges[e].value.minLen;
      }
    }
  }

  lemma ListsSome<T>(q: seq<T>, s: set<T>, x: T)
    requires Lists(q, s) && x in s
    ensures |q| > 0 && q[0] in s
  {
    assert x in q;
  }

  lemma RankStep(edges: Edges, sorted: seq<Id>, i: nat, rank: map<Id, int>, m: int)
    requires NoDup(sorted) && Ordered(edges, sorted) && i < |sorted| && RankedUpTo(edges, sorted, i, rank)
    requires if Preds(edges, sorted[i]) == {} then m == 0 else
             && (exists e :: e in edges && edges[e].v == sorted[i] && edges[e].u in rank && m == rank[edges[e].u] + edges[e].value.minLen)
             && (forall e :: e in edges && edges[e].v == sorted[i] ==> edges[e].u in rank && rank[edges[e].u] + edges[e].value.minLen <= m)
    ensures RankedUpTo(edges, sorted, i + 1, rank[sorted[i] := m])
  {
    var v := sorted[i];
    var rank' := rank[v := m];
    assert sorted[..i + 1] == sorted[..i] + [v];
    assert v !in rank;
    assert forall e :: e in edges && edges[e].v == v ==> edges[e].u in Preds(edges, v);
    forall x | x in rank' ensures HangsTight(edges, rank', x) {
      if x != v {
        assert HangsTight(edges, rank, x);
      }
    }
  }

  /** Ranks every node by the longest way to it. */
  method InitRank(nodes: set<Id>, edges: Edges) returns (rank: map<Id, int>)
    requires EndsIn(edges, nodes) && IsAcyclic(edges)
    ensures rank.Keys == nodes && Feasible(edges, rank)
    ensures AllHang(nodes, edges, rank) && forall v :: v in nodes ==> IsLongest(nodes, edges, v, rank[v])
  {
    hide *;
    var sorted := SortAcyclic(nodes, edges);
    rank := map[];
    RankStart(edges, sorted);
    for i := 0 to |sorted|
      invariant RankedUpTo(edges, sorted, i, rank)
    {
      var u := sorted[i];
      NextPreds(edges, sorted, i, rank);
      var m := 0;
      if Preds(edges, u) != {} {
        m := MaxRank(edges, u, rank);
      }
      RankStep(edges, sorted, i, rank, m);
      rank := rank[u := m];
    }
    AllRanked(nodes, edges, sorted, rank);
    forall v | v in nodes ensures IsLongest(nodes, edges, v, rank[v]) {
      RankIsLongest(nodes, edges, rank, v);
    }
  }

  /** On an acyclic graph topsort returns all nodes, each after its predecessors. */
  method SortAcyclic(nodes: set<Id>, edges: Edges) returns (sorted: seq<Id>)
    requires EndsIn(edges, nodes) && IsAcyclic(edges)
    ensures NoDup(sorted) && Ordered(edges, sorted) && forall x :: x in sorted <==> x in nodes
  {
    var r := TopSort(nodes, edges);
    SortComplete(nodes, edges);
    SortWithin(nodes, edges, r.value);
    sorted := r.value;
  }

  lemma RankStart(edges: Edges, sorted: seq<Id>)
    ensures RankedUpTo(edges, sorted, 0, map[])
  {
  }

  lemma AllRanked(nodes: set<Id>, edges: Edges, sorted: seq<Id>, rank: map<Id, int>)
    requires EndsIn(edges, nodes) && RankedUpTo(edges, sorted, |sorted|, rank) && forall x :: x in sorted <==> x in nodes
    ensures rank.Keys == nodes && Feasible(edges, rank)
    ensures AllHang(nodes, edges, rank)
  {
    assert sorted[..|sorted|] == sorted;
    hide HangsTight;
  }

  lemma SortWithin(nodes: set<Id>, edges: Edges, sorted: seq<Id>)
    requires EndsIn(edges, nodes) && forall x :: x in sorted <==> LeadsToSink(nodes, edges, x)
    requires forall x :: x in nodes ==> LeadsToSink(nodes, edges, x)
    ensures forall x :: x in sorted <==> x in nodes
  {
    forall x | x in sorted ensures x in nodes {
      var s :| s in Sinks(nodes, edges) && Leads(edges, x, s);
      var es :| Chain(edges, x, es, s);
    }
  }

  lemma NextPreds(edges: Edges, sorted: seq<Id>, i: nat, rank: map<Id, int>)
    requires Ordered(edges, sorted) && i < |sorted| && RankedUpTo(edges, sorted, i, rank)
    ensures forall e :: e in edges && edges[e].v == sorted[i] ==> edges[e].u in rank
  {
  }

  // ---------- what the first ranking means ----------

  ghost function ChainLength(edges: Edges, es: seq<Id>): int {
    if es == [] then 0
    else (if es[0] in edges then edges[es[0]].value.minLen else 0) + ChainLength(edges, es[1..])
  }

  lemma {:induction false} ChainLengthConcat(edges: Edges, p: seq<Id>, q: seq<Id>)
    ensures ChainLength(edges, p + q) == ChainLength(edges, p) + ChainLength(edges, q)
  {
    if p == [] {
      assert p + q == q;
    } else {
      ChainLengthConcat(edges, p[1..], q);
      assert (p + q)[1..] == p[1..] + q;
    }
  }

  /** No chain is longer than the difference of the ranks of its ends. */
  lemma {:induction false} NoLongerChain(edges: Edges, rank: map<Id, int>, u: Id, es: seq<Id>, v: Id)
    requires Feasible(edges, rank) && u in rank && Chain(edges, u, es, v)
    ensures v in rank && ChainLength(edges, es) <= rank[v] - rank[u]
    decreases |es|
  {
    if es != [] {
      NoLongerChain(edges, rank, edges[es[0]].v, es[1..], v);
    }
  }

  /** Each node's rank is the length of some chain from a source: following tight in-edges upwards
      in an acyclic graph ends at a source. */
  lemma {:induction false} SomeChainAsLong(nodes: set<Id>, edges: Edges, rank: map<Id, int>, v: Id, seen: set<Id>)
    returns (s: Id, es: seq<Id>)
    requires EndsIn(edges, nodes) && rank.Keys == nodes && v in nodes && seen <= nodes && v !in seen
    requires forall x :: !Follows(edges, x, x)
    requires forall x :: x in seen ==> Follows(edges, v, x)
    requires AllHang(nodes, edges, rank)
    ensures s in nodes && Preds(edges, s) == {} && Chain(edges, s, es, v) && ChainLength(edges, es) == rank[v]
    decreases nodes - seen
  {
    assert HangsTight(edges, rank, v);
    if Preds(edges, v) == {} {
      return v, [];
    }
    var e :| e in edges && edges[e].v == v && edges[e].u in rank && rank[v] == rank[edges[e].u] + edges[e].value.minLen;
    var u := edges[e].u;
    LeadsSelf(edges, v);
    forall x | x in seen + {v} ensures Follows(edges, u, x) {
      if x in seen {
        FollowsLeads(edges, v, x);
      }
      EdgeLeads(edges, e, x);
    }
    s, es := SomeChainAsLong(nodes, edges, rank, u, seen + {v});
    assert [e][1..] == [] && Chain(edges, u, [e], v) && ChainLength(edges, [e]) == edges[e].value.minLen;
    ChainConcat(edges, s, es, u, [e], v);
    ChainLengthConcat(edges, es, [e]);
    es := es + [e];
  }

  /** es leads from a source to v. */
  ghost predicate FromSource(nodes: set<Id>, edges: Edges, s: Id, es: seq<Id>, v: Id) {
    s in nodes && Preds(edges, s) == {} && Chain(edges, s, es, v)
  }

  /** n is the length of the longest chain from a source to v. */
  ghost predicate IsLongest(nodes: set<Id>, edges: Edges, v: Id, n: int) {
    && (exists s, es :: FromSource(nodes, edges, s, es, v) && ChainLength(edges, es) == n)
    && forall s, es :: FromSource(nodes, edges, s, es, v) ==> ChainLength(edges, es) <= n
  }

  /** The first ranking is that by longest chains. */
  lemma RankIsLongest(nodes: set<Id>, edges: Edges, rank: map<Id, int>, v: Id)
    requires EndsIn(edges, nodes) && IsAcyclic(edges) && rank.Keys == nodes && v in nodes
    requires Feasible(edges, rank) && AllHang(nodes, edges, rank)
    ensures IsLongest(nodes, edges, v, rank[v])
  {
    hide IsAcyclic, Feasible, ChainLength, Chain;
    AcyclicMeans(edges);
    var s, es := SomeChainAsLong(nodes, edges, rank, v, {});
    assert FromSource(nodes, edges, s, es, v);
    forall s, es | FromSource(nodes, edges, s, es, v) ensures ChainLength(edges, es) <= rank[v] {
      assert HangsTight(edges, rank, s);
      NoLongerChain(edges, rank, s, es, v);
    }
  }
}
