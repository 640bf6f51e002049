/** Connected components, and the spanning tree of tight edges that ranking grows in each. */
module TightTrees {
  import opened Base
  import opened Digraphs
  import opened Acyclics
  import opened TopSorts

  // ---------- connectedness by cuts ----------

  /** Some pair has one end in s and the other in the rest of c. */
  ghost predicate Crossed(pairs: set<(Id, Id)>, s: set<Id>, c: set<Id>) {
    exists p :: p in pairs && ((p.0 in s && p.1 in c - s) || (p.1 in s && p.0 in c - s))
  }

  /** Every way of splitting c in two is crossed. */
  ghost predicate Connected(pairs: set<(Id, Id)>, c: set<Id>) {
    forall s :: s <= c && s != {} && s != c ==> Crossed(pairs, s, c)
  }

  ghost function Pairs<V>(edges: map<Id, Edge<V>>): set<(Id, Id)> {
    set e | e in edges :: (edges[e].u, edges[e].v)
  }

  lemma ConnectedAlone(pairs: set<(Id, Id)>, v: Id)
    ensures Connected(pairs, {v})
  {
  }

  lemma ConnectedMore(pairs: set<(Id, Id)>, pairs': set<(Id, Id)>, c: set<Id>, w: Id, x: Id)
    requires Connected(pairs, c) && pairs <= pairs' && x in c && w !in c
    requires (x, w) in pairs' || (w, x) in pairs'
    ensures Connected(pairs', c + {w})
  {
    forall s | s <= c + {w} && s != {} && s != c + {w} ensures Crossed(pairs', s, c + {w}) {
      if s - {w} == {} {
        assert s == {w};
      } else if s - {w} == c {
        assert w !in s;
      } else {
        assert s - {w} <= c;
        assert Crossed(pairs, s - {w}, c);
        var p :| p in pairs && ((p.0 in s - {w} && p.1 in c - (s - {w})) || (p.1 in s - {w} && p.0 in c - (s - {w})));
        assert p in pairs';
      }
    }
  }

  // ---------- components ----------

  function Neighbors(edges: Edges, v: Id): set<Id> {
    (set e | e in edges && edges[e].u == v :: edges[e].v) + (set e | e in edges && edges[e].v == v :: edges[e].u)
  }

  lemma NeighborPair(edges: Edges, v: Id, w: Id)
    ensures w in Neighbors(edges, v) <==> (v, w) in Pairs(edges) || (w, v) in Pairs(edges)
    ensures w in Neighbors(edges, v) <==> v in Neighbors(edges, w)
  {
    if e :| e in edges && edges[e].u == v && edges[e].v == w {
      assert (edges[e].u, edges[e].v) in Pairs(edges);
    } else if e :| e in edges && edges[e].v == v && edges[e].u == w {
      assert (edges[e].u, edges[e].v) in Pairs(edges);
    }
  }

  /** Whatever was visited since `visited0` has all its neighbours visited, except those of the open nodes. */
  ghost predicate ClosedSince(edges: Edges, visited0: set<Id>, visited: set<Id>, open: set<Id>) {
    forall x :: x in visited - visited0 - open ==> Neighbors(edges, x) <= visited
  }

  /** The component has grown, still connected, by the nodes newly visited. */
  ghost predicate Grown(edges: Edges, visited0: set<Id>, visited: set<Id>, component0: set<Id>, component: set<Id>, open: set<Id>) {
    && visited0 <= visited && component == component0 + (visited - visited0) && component <= visited
    && (component == {} || Connected(Pairs(edges), component))
    && ClosedSince(edges, visited0, visited, open)
  }

  /** v is visited or next to the component, if there is one yet. */
  ghost predicate MayJoin(edges: Edges, v: Id, visited: set<Id>, component: set<Id>) {
    v in visited || component == {} || exists x :: x in component && x in Neighbors(edges, v)
  }

  method CollectComponent(nodes: set<Id>, edges: Edges, v: Id, visited: set<Id>, component: set<Id>)
    returns (visited': set<Id>, component': set<Id>)
    requires EndsIn(edges, nodes) && v in nodes && visited <= nodes
    requires Grown(edges, visited, visited, component, component, {}) && MayJoin(edges, v, visited, component)
    ensures v in visited' && visited <= visited' <= nodes
    ensures Grown(edges, visited, visited', component, component', {})
    decreases nodes - visited
  {
    hide *;
    if v in visited {
      return visited, component;
    }
    visited', component' := visited + {v}, component + {v};
    Joined(edges, visited, component, v);
    var ws := Listing(Neighbors(edges, v));
    UptoEnds(ws, Neighbors(edges, v));
    NeighborsIn(nodes, edges, v);
    for i := 0 to |ws|
      invariant visited + {v} <= visited' <= nodes && v in component'
      invariant Grown(edges, visited, visited', component, component', {v}) && Upto(ws, i) <= visited'
    {
      UptoStep(ws, Neighbors(edges, v), i);
      MayGoOn(edges, visited, visited', component, component', v, ws[i]);
      ghost var before, smaller := visited', component';
      visited', component' := CollectComponent(nodes, edges, ws[i], visited', component');
      GrownTwice(edges, visited, before, visited', component, smaller, component', v);
    }
    GrownEnd(edges, visited, visited', component, component', v);
  }

  lemma Joined(edges: Edges, visited: set<Id>, component: set<Id>, v: Id)
    requires Grown(edges, visited, visited, component, component, {}) && MayJoin(edges, v, visited, component) && v !in visited
    ensures Grown(edges, visited, visited + {v}, component, component + {v}, {v})
  {
    AddToComponent(edges, component, v);
  }

  lemma MayGoOn(edges: Edges, visited0: set<Id>, visited: set<Id>, component0: set<Id>, component: set<Id>, v: Id, w: Id)
    requires Grown(edges, visited0, visited, component0, component, {v}) && v in component && w in Neighbors(edges, v)
    ensures MayJoin(edges, w, visited, component) && Grown(edges, visited, visited, component, component, {})
  {
    NeighborPair(edges, v, w);
  }

  lemma GrownTwice(edges: Edges, v0: set<Id>, v1: set<Id>, v2: set<Id>, c0: set<Id>, c1: set<Id>, c2: set<Id>, v: Id)
    requires Grown(edges, v0, v1, c0, c1, {v}) && Grown(edges, v1, v2, c1, c2, {}) && v in c1
    ensures Grown(edges, v0, v2, c0, c2, {v}) && v in c2
  {
    hide Connected;
  }

  lemma GrownEnd(edges: Edges, v0: set<Id>, v1: set<Id>, c0: set<Id>, c1: set<Id>, v: Id)
    requires Grown(edges, v0, v1, c0, c1, {v}) && Neighbors(edges, v) <= v1
    ensures Grown(edges, v0, v1, c0, c1, {})
  {
    hide Connected;
  }

  lemma AddToComponent(edges: Edges, component: set<Id>, v: Id)
    requires component == {} || Connected(Pairs(edges), component)
    requires v in component || component == {} || exists x :: x in component && x in Neighbors(edges, v)
    ensures Connected(Pairs(edges), component + {v})
  {
    if component == {} {
      assert component + {v} == {v};
      ConnectedAlone(Pairs(edges), v);
    } else if v in component {
      assert component + {v} == component;
    } else {
      var x :| x in component && x in Neighbors(edges, v);
      NeighborPair(edges, v, x);
      ConnectedMore(Pairs(edges), Pairs(edges), component, v, x);
    }
  }

  lemma NeighborsIn(nodes: set<Id>, edges: Edges, v: Id)
    requires EndsIn(edges, nodes)
    ensures Neighbors(edges, v) <= nodes
  {
  }

  /** No edge leaves c. */
  ghost predicate Separate(edges: Edges, c: set<Id>) {
    forall e :: e in edges ==> (edges[e].u in c <==> edges[e].v in c)
  }

  /** The parts are disjoint, and each is connected and separate from the rest. */
  ghost predicate AreComponents(edges: Edges, parts: seq<set<Id>>, covered: set<Id>) {
    && (forall i :: 0 <= i < |parts| ==>
          parts[i] != {} && parts[i] <= covered && Connected(Pairs(edges), parts[i]) && Separate(edges, parts[i]))
    && (forall i, j :: 0 <= i < j < |parts| ==> parts[i] !! parts[j])
    && (forall x :: x in covered ==> exists i :: 0 <= i < |parts| && x in parts[i])
  }

  method Components(nodes: set<Id>, edges: Edges) returns (parts: seq<set<Id>>)
    requires EndsIn(edges, nodes)
    ensures AreComponents(edges, parts, nodes)
  {
    hide *;
    parts := [];
    var visited: set<Id> := {};
    var us := Listing(nodes);
    UptoEnds(us, nodes);
    NoComponents(edges);
    for i := 0 to |us|
      invariant Upto(us, i) <= visited <= nodes && Separate(edges, visited) && AreComponents(edges, parts, visited)
    {
      UptoStep(us, nodes, i);
      ghost var before := visited;
      var component: set<Id> := {};
      NothingGrown(edges, visited);
      visited, component := CollectComponent(nodes, edges, us[i], visited, component);
      NextComponent(edges, parts, before, visited, component);
      if component != {} {
        parts := parts + [component];
      }
    }
    assert visited == nodes;
  }

  lemma NothingGrown(edges: Edges, visited: set<Id>)
    ensures Grown(edges, visited, visited, {}, {}, {})
    ensures forall v :: MayJoin(edges, v, visited, {})
  {
  }

  lemma NoComponents(edges: Edges)
    ensures Separate(edges, {}) && AreComponents(edges, [], {})
  {
  }

  lemma NextComponent(edges: Edges, parts: seq<set<Id>>, before: set<Id>, visited: set<Id>, component: set<Id>)
    requires Separate(edges, before) && AreComponents(edges, parts, before) && before <= visited
    requires Grown(edges, before, visited, {}, component, {})
    ensures Separate(edges, visited)
    ensures AreComponents(edges, if component != {} then parts + [component] else parts, visited)
  {
    SeparateNext(edges, before, visited, component);
    hide Connected, ClosedSince, Separate;
    if component != {} {
      PartsNext(edges, parts, before, visited, component);
    } else {
      assert visited == before + component;
    }
  }

  lemma SeparateNext(edges: Edges, before: set<Id>, visited: set<Id>, component: set<Id>)
    requires Separate(edges, before) && before <= visited && component == visited - before
    requires ClosedSince(edges, before, visited, {})
    ensures Separate(edges, visited) && Separate(edges, component)
  {
    forall e | e in edges ensures edges[e].u in component <==> edges[e].v in component {
      var u, v := edges[e].u, edges[e].v;
      assert v in Neighbors(edges, u) && u in Neighbors(edges, v);
    }
  }

  lemma PartsNext(edges: Edges, parts: seq<set<Id>>, before: set<Id>, visited: set<Id>, component: set<Id>)
    requires AreComponents(edges, parts, before) && before <= visited && component == visited - before && component != {}
    requires Connected(Pairs(edges), component) && Separate(edges, component)
    ensures AreComponents(edges, parts + [component], visited)
  {
    hide Connected, Separate;
    var parts' := parts + [component];
    forall x | x in visited ensures exists i :: 0 <= i < |parts'| && x in parts'[i] {
      if x in component {
        assert x in parts'[|parts|];
      } else {
        var i :| 0 <= i < |parts| && x in parts[i];
        assert x in parts'[i];
      }
    }
  }

  // ---------- the feasible tree ----------

  /** A tree edge; `reversed` marks one found from its head. */
  datatype Link = Link(u: Id, v: Id, reversed: bool)

  ghost function LinkPairs(links: seq<Link>): set<(Id, Id)> {
    set l | l in links :: (l.u, l.v)
  }

  ghost predicate TightEdge(edges: Edges, rank: map<Id, int>, e: Id) {
    && e in edges && edges[e].u in rank && edges[e].v in rank
    && rank[edges[e].v] - rank[edges[e].u] == edges[e].value.minLen
  }

  /** Some edge from u to v is exactly as long as its minimum. */
  ghost predicate TightPair(edges: Edges, rank: map<Id, int>, u: Id, v: Id) {
    exists e :: TightEdge(edges, rank, e) && edges[e].u == u && edges[e].v == v
  }

  /** slack(u, v): how much the edges from u to v could shrink, by the most demanding of them. */
  method Slack(edges: Edges, rank: map<Id, int>, u: Id, v: Id) returns (s: int)
    requires Feasible(edges, rank) && Between(edges, u, v) != {}
    ensures 0 <= s && (s == 0 <==> TightPair(edges, rank, u, v))
    ensures exists e :: e in Between(edges, u, v) && s == rank[v] - rank[u] - edges[e].value.minLen
    ensures forall e :: e in Between(edges, u, v) ==> s <= rank[v] - rank[u] - edges[e].value.minLen
  {
    var es := Listing(set e | e in edges && edges[e].u == u && edges[e].v == v);
    UptoEnds(es, Between(edges, u, v));
    ghost var e0 :| e0 in Between(edges, u, v);
    assert es[0] in Between(edges, u, v);
    var maxMinLen := edges[es[0]].value.minLen;
    for i := 0 to |es|
      invariant exists e :: e in Between(edges, u, v) && maxMinLen == edges[e].value.minLen
      invariant forall e :: e in Upto(es, i) ==> e in edges && edges[e].value.minLen <= maxMinLen
    {
      UptoStep(es, Between(edges, u, v), i);
      if maxMinLen < edges[es[i]].value.minLen {
        maxMinLen := edges[es[i]].value.minLen;
      }
    }
    s := rank[v] - rank[u] - maxMinLen;
    ghost var e1 :| e1 in Between(edges, u, v) && maxMinLen == edges[e1].value.minLen;
    assert s == 0 ==> TightEdge(edges, rank, e1);
    if TightPair(edges, rank, u, v) {
      ghost var e2 :| TightEdge(edges, rank, e2) && edges[e2].u == u && edges[e2].v == v;
      assert e2 in Upto(es, |es|);
    }
  }

  /** The tree spans the nodes of c that do not remain, by tight links, and is a tree: connected
      with one link fewer than nodes. */
  ghost predicate Growing(edges: Edges, c: set<Id>, rank: map<Id, int>, remaining: set<Id>, links: seq<Link>) {
    && EndsIn(edges, c) && NoSelfLoops(edges) && Feasible(edges, rank) && c <= rank.Keys && remaining <= c
    && (forall l :: l in links ==>
          l.u in c && l.v in c && l.u !in remaining && l.v !in remaining && TightPair(edges, rank, l.u, l.v))
    && SpansTree(c, remaining, links)
  }

  ghost predicate SpansTree(c: set<Id>, remaining: set<Id>, links: seq<Link>) {
    if remaining == c then links == []
    else Connected(LinkPairs(links), c - remaining) && |links| + 1 == |c - remaining|
  }

  /** The node v may be scanned: it is in the tree, or there is no tree yet. */
  ghost predicate MayScan(c: set<Id>, remaining: set<Id>, v: Id) {
    v in c && (remaining == c || v !in remaining)
  }

  /** No tight edge joins v to a remaining node. */
  ghost predicate NoTight(edges: Edges, rank: map<Id, int>, remaining: set<Id>, v: Id) {
    forall w :: w in remaining ==> !TightPair(edges, rank, v, w) && !TightPair(edges, rank, w, v)
  }

  function Succs(edges: Edges, v: Id): set<Id> {
    set e | e in edges && edges[e].u == v :: edges[e].v
  }

  function LinkOf(v: Id, w: Id, reversed: bool): Link {
    if reversed then Link(w, v, true) else Link(v, w, false)
  }

  lemma LinkPairsMore(links: seq<Link>, l: Link)
    ensures LinkPairs(links + [l]) == LinkPairs(links) + {(l.u, l.v)}
  {
    forall p | p in LinkPairs(links) + {(l.u, l.v)} ensures p in LinkPairs(links + [l]) {
      if p == (l.u, l.v) {
        assert l in links + [l];
      } else {
        var k :| k in links && p == (k.u, k.v);
        assert k in links + [l];
      }
    }
  }

  /** Hanging the remaining node w on v by a tight edge. */
  lemma Attach(edges: Edges, c: set<Id>, rank: map<Id, int>, remaining: set<Id>, links: seq<Link>, v: Id, w: Id, reversed: bool)
    requires Growing(edges, c, rank, remaining, links) && MayScan(c, remaining, v) && w in remaining && v != w
    requires TightPair(edges, rank, LinkOf(v, w, reversed).u, LinkOf(v, w, reversed).v)
    ensures Growing(edges, c, rank, remaining - {v} - {w}, links + [LinkOf(v, w, reversed)])
  {
    hide TightPair, Feasible;
    AttachSpans(c, remaining, links, v, w, reversed);
    hide SpansTree;
  }

  lemma AttachSpans(c: set<Id>, remaining: set<Id>, links: seq<Link>, v: Id, w: Id, reversed: bool)
    requires SpansTree(c, remaining, links) && MayScan(c, remaining, v) && w in remaining && v != w && remaining <= c
    ensures SpansTree(c, remaining - {v} - {w}, links + [LinkOf(v, w, reversed)])
  {
    var l := LinkOf(v, w, reversed);
    var tree := if remaining == c then {v} else c - remaining;
    assert c - (remaining - {v} - {w}) == tree + {w};
    LinkPairsMore(links, l);
    if remaining == c {
      ConnectedAlone(LinkPairs(links), v);
    }
    ConnectedMore(LinkPairs(links), LinkPairs(links + [l]), tree, w, v);
  }

  /** Hangs every remaining node that tight edges reach from v on the tree. Tells whether there was none. */
  method AddTightEdges(edges: Edges, c: set<Id>, rank: map<Id, int>, v: Id, remaining: set<Id>, links: seq<Link>)
    returns (continueToScan: bool, remaining': set<Id>, links': seq<Link>)
    requires Growing(edges, c, rank, remaining, links) && MayScan(c, remaining, v)
    ensures Growing(edges, c, rank, remaining', links') && remaining' <= remaining
    ensures continueToScan ==> remaining' == remaining && links' == links && NoTight(edges, rank, remaining, v)
    ensures !continueToScan ==> remaining' < remaining && v !in remaining'
    decreases remaining, 1
  {
    hide *;
    continueToScan, remaining', links' := true, remaining, links;
    var preds := Listing(Preds(edges, v));
    for i := 0 to |preds|
      invariant Growing(edges, c, rank, remaining', links') && remaining' <= remaining && MayScan(c, remaining', v)
      invariant continueToScan ==> remaining' == remaining && links' == links
      invariant continueToScan ==> forall j :: 0 <= j < i && preds[j] in remaining ==> !TightPair(edges, rank, preds[j], v)
      invariant !continueToScan ==> remaining' < remaining && v !in remaining'
    {
      var found;
      assert preds[i] in preds;
      HasEdge(edges, c, rank, remaining', links', preds[i], v);
      found, remaining', links' := TryTight(edges, c, rank, v, preds[i], true, remaining', links');
      continueToScan := continueToScan && !found;
    }
    var succs := Listing(Succs(edges, v));
    for i := 0 to |succs|
      invariant Growing(edges, c, rank, remaining', links') && remaining' <= remaining && MayScan(c, remaining', v)
      invariant continueToScan ==> remaining' == remaining && links' == links
      invariant continueToScan ==> forall j :: 0 <= j < |preds| && preds[j] in remaining ==> !TightPair(edges, rank, preds[j], v)
      invariant continueToScan ==> forall j :: 0 <= j < i && succs[j] in remaining ==> !TightPair(edges, rank, v, succs[j])
      invariant !continueToScan ==> remaining' < remaining && v !in remaining'
    {
      var found;
      assert succs[i] in succs;
      HasEdge(edges, c, rank, remaining', links', v, succs[i]);
      found, remaining', links' := TryTight(edges, c, rank, v, succs[i], false, remaining', links');
      continueToScan := continueToScan && !found;
    }
    if continueToScan {
      NoneTight(edges, rank, remaining, v, preds, succs);
    }
  }

  lemma HasEdge(edges: Edges, c: set<Id>, rank: map<Id, int>, remaining: set<Id>, links: seq<Link>, u: Id, v: Id)
    requires Growing(edges, c, rank, remaining, links) && (u in Preds(edges, v) || v in Succs(edges, u))
    ensures Between(edges, u, v) != {} && u != v && u in c && v in c && Feasible(edges, rank) && remaining <= c
    ensures LinkOf(v, u, true) == Link(u, v, true) && LinkOf(u, v, false) == Link(u, v, false)
  {
    var e :| e in edges && edges[e].u == u && edges[e].v == v;
    assert e in Between(edges, u, v);
  }

  lemma NoneTight(edges: Edges, rank: map<Id, int>, remaining: set<Id>, v: Id, preds: seq<Id>, succs: seq<Id>)
    requires Lists(preds, Preds(edges, v))
    requires Lists(succs, Succs(edges, v))
    requires forall j :: 0 <= j < |preds| && preds[j] in remaining ==> !TightPair(edges, rank, preds[j], v)
    requires forall j :: 0 <= j < |succs| && succs[j] in remaining ==> !TightPair(edges, rank, v, succs[j])
    ensures NoTight(edges, rank, remaining, v)
  {
    assert forall e :: e in edges && edges[e].u == v ==> edges[e].v in Succs(edges, v);
    assert forall e :: e in edges && edges[e].v == v ==> edges[e].u in Preds(edges, v);
  }

  /** One neighbour of v: if it remains and its edge is tight, it is hung on v and searched from. */
  method TryTight(edges: Edges, c: set<Id>, rank: map<Id, int>, v: Id, w: Id, reversed: bool, remaining: set<Id>, links: seq<Link>)
    returns (found: bool, remaining': set<Id>, links': seq<Link>)
    requires Growing(edges, c, rank, remaining, links) && MayScan(c, remaining, v) && v != w && Feasible(edges, rank) && remaining <= c
    requires Between(edges, LinkOf(v, w, reversed).u, LinkOf(v, w, reversed).v) != {}
    ensures Growing(edges, c, rank, remaining', links') && remaining' <= remaining && MayScan(c, remaining', v)
    ensures found ==> remaining' < remaining && v !in remaining'
    ensures !found ==> remaining' == remaining && links' == links
    ensures !found && w in remaining ==> !TightPair(edges, rank, LinkOf(v, w, reversed).u, LinkOf(v, w, reversed).v)
    decreases remaining, 0
  {
    hide *;
    found, remaining', links' := false, remaining, links;
    var l := LinkOf(v, w, reversed);
    if w in remaining {
      var slack := Slack(edges, rank, l.u, l.v);
      if slack == 0 {
        Attach(edges, c, rank, remaining, links, v, w, reversed);
        remaining' := remaining - {v} - {w};
        links' := links + [l];
        Attached(c, remaining, v, w);
        var scan;
        scan, remaining', links' := AddTightEdges(edges, c, rank, w, remaining', links');
        found := true;
        InTree(c, remaining, remaining', v, w);
      }
    }
  }

  lemma InTree(c: set<Id>, remaining: set<Id>, remaining': set<Id>, v: Id, w: Id)
    requires MayScan(c, remaining, v) && remaining' <= remaining - {v} - {w}
    ensures MayScan(c, remaining', v)
  {
  }

  lemma Attached(c: set<Id>, remaining: set<Id>, v: Id, w: Id)
    requires MayScan(c, remaining, v) && w in remaining && remaining <= c
    ensures MayScan(c, remaining - {v} - {w}, w) && remaining - {v} - {w} < remaining
  {
  }

  // ---------- moving the tree until one more edge is tight ----------

  /** e joins the tree to a remaining node. */
  ghost predicate Joins(edges: Edges, remaining: set<Id>, e: Id) {
    e in edges && ((edges[e].u in remaining) != (edges[e].v in remaining))
  }

  function Abs(x: int): int {
    if x < 0 then -x else x
  }

  ghost function SlackOf(edges: Edges, rank: map<Id, int>, e: Id): int
    requires e in edges && edges[e].u in rank && edges[e].v in rank
  {
    rank[edges[e].v] - rank[edges[e].u] - edges[e].value.minLen
  }

  /** Some joining edge has slack |m|, and m is negative exactly as the tree must move towards its head. */
  ghost predicate SlackFound(edges: Edges, rank: map<Id, int>, remaining: set<Id>, m: Option<int>)
    requires Feasible(edges, rank)
  {
    m.Some? ==> exists e :: Joins(edges, remaining, e) &&
                            m.value == if edges[e].v in remaining then -SlackOf(edges, rank, e) else SlackOf(edges, rank, e)
  }

  /** No joining edge at a node of vs has a smaller slack. */
  ghost predicate LeastAt(edges: Edges, rank: map<Id, int>, remaining: set<Id>, vs: set<Id>, m: Option<int>)
    requires Feasible(edges, rank)
  {
    forall e :: Joins(edges, remaining, e) && (edges[e].u in vs || edges[e].v in vs) ==>
      m.Some? && Abs(m.value) <= SlackOf(edges, rank, e)
  }

  /** No edge between u and v has a smaller slack. */
  ghost predicate LeastBetween(edges: Edges, rank: map<Id, int>, u: Id, v: Id, m: Option<int>)
    requires Feasible(edges, rank)
  {
    forall e :: e in Between(edges, u, v) ==> m.Some? && Abs(m.value) <= SlackOf(edges, rank, e)
  }

  /** m is no larger than m0, where both are defined. */
  predicate Sharper(m0: Option<int>, m: Option<int>) {
    m0.Some? ==> m.Some? && Abs(m.value) <= Abs(m0.value)
  }

  /** Takes the slack of (u, v) into account; exactly one of u and v remains. */
  method TrySlack(edges: Edges, rank: map<Id, int>, remaining: set<Id>, u: Id, v: Id, m0: Option<int>) returns (m: Option<int>)
    requires Feasible(edges, rank) && Between(edges, u, v) != {} && (u in remaining) != (v in remaining)
    requires SlackFound(edges, rank, remaining, m0)
    ensures SlackFound(edges, rank, remaining, m) && Sharper(m0, m) && LeastBetween(edges, rank, u, v, m)
  {
    var edgeSlack := Slack(edges, rank, u, v);
    m := m0;
    if m0.None? || edgeSlack < Abs(m0.value) {
      m := Some(if v in remaining then -edgeSlack else edgeSlack);
      ghost var e :| e in Between(edges, u, v) && edgeSlack == SlackOf(edges, rank, e);
      assert Joins(edges, remaining, e);
    }
  }

  /** Takes every edge between v, which remains, and the tree into account. */
  method SlackAt(edges: Edges, rank: map<Id, int>, remaining: set<Id>, v: Id, m0: Option<int>) returns (m: Option<int>)
    requires Feasible(edges, rank) && v in remaining && SlackFound(edges, rank, remaining, m0)
    ensures SlackFound(edges, rank, remaining, m) && Sharper(m0, m) && LeastAt(edges, rank, remaining, {v}, m)
  {
    hide *;
    m := m0;
    SharperSelf(m);
    var preds := Listing(Preds(edges, v));
    for i := 0 to |preds|
      invariant SlackFound(edges, rank, remaining, m) && Sharper(m0, m)
      invariant forall j :: 0 <= j < i && preds[j] !in remaining ==> LeastBetween(edges, rank, preds[j], v, m)
    {
      if preds[i] !in remaining {
        assert preds[i] in preds;
        SomeBetween(edges, preds[i], v);
        ghost var before := m;
        m := TrySlack(edges, rank, remaining, preds[i], v, m);
        StillLeast(edges, rank, before, m);
        SharperTwice(m0, before, m);
      }
    }
    var succs := Listing(Succs(edges, v));
    for i := 0 to |succs|
      invariant SlackFound(edges, rank, remaining, m) && Sharper(m0, m)
      invariant forall j :: 0 <= j < |preds| && preds[j] !in remaining ==> LeastBetween(edges, rank, preds[j], v, m)
      invariant forall j :: 0 <= j < i && succs[j] !in remaining ==> LeastBetween(edges, rank, v, succs[j], m)
    {
      if succs[i] !in remaining {
        assert succs[i] in succs;
        SomeBetween(edges, v, succs[i]);
        ghost var before := m;
        m := TrySlack(edges, rank, remaining, v, succs[i], m);
        StillLeast(edges, rank, before, m);
        SharperTwice(m0, before, m);
      }
    }
    LeastAround(edges, rank, remaining, v, preds, succs, m);
  }

  lemma SharperSelf(m: Option<int>)
    ensures Sharper(m, m)
  {
  }

  lemma SharperTwice(a: Option<int>, b: Option<int>, c: Option<int>)
    requires Sharper(a, b) && Sharper(b, c)
    ensures Sharper(a, c)
  {
  }

  lemma SomeBetween(edges: Edges, u: Id, v: Id)
    requires u in Preds(edges, v) || v in Succs(edges, u)
    ensures Between(edges, u, v) != {}
  {
    var e :| e in edges && edges[e].u == u && edges[e].v == v;
    assert e in Between(edges, u, v);
  }

  lemma StillLeast(edges: Edges, rank: map<Id, int>, m0: Option<int>, m: Option<int>)
    requires Feasible(edges, rank) && Sharper(m0, m)
    ensures forall u, v :: LeastBetween(edges, rank, u, v, m0) ==> LeastBetween(edges, rank, u, v, m)
  {
  }

  lemma LeastAround(edges: Edges, rank: map<Id, int>, remaining: set<Id>, v: Id, preds: seq<Id>, succs: seq<Id>, m: Option<int>)
    requires Feasible(edges, rank) && v in remaining && Lists(preds, Preds(edges, v)) && Lists(succs, Succs(edges, v))
    requires forall j :: 0 <= j < |preds| && preds[j] !in remaining ==> LeastBetween(edges, rank, preds[j], v, m)
    requires forall j :: 0 <= j < |succs| && succs[j] !in remaining ==> LeastBetween(edges, rank, v, succs[j], m)
    ensures LeastAt(edges, rank, remaining, {v}, m)
  {
    forall e | Joins(edges, remaining, e) && (edges[e].u in {v} || edges[e].v in {v})
      ensures m.Some? && Abs(m.value) <= SlackOf(edges, rank, e)
    {
      assert e in Between(edges, edges[e].u, edges[e].v);
      if edges[e].v == v {
        assert edges[e].u in Preds(edges, v);
      } else {
        assert edges[e].v in Succs(edges, v);
      }
    }
  }

  lemma LeastMore(edges: Edges, rank: map<Id, int>, remaining: set<Id>, vs: set<Id>, v: Id, m0: Option<int>, m: Option<int>)
    requires Feasible(edges, rank) && Sharper(m0, m)
    requires LeastAt(edges, rank, remaining, vs, m0) && LeastAt(edges, rank, remaining, {v}, m)
    ensures LeastAt(edges, rank, remaining, vs + {v}, m)
  {
  }

  ghost function Shifted(rank: map<Id, int>, tree: set<Id>, d: int): map<Id, int> {
    map x | x in rank :: if x in tree then rank[x] - d else rank[x]
  }

  /** Moves the whole tree by the least slack towards the remaining nodes. */
  method CreateTightEdge(edges: Edges, c: set<Id>, rank: map<Id, int>, remaining: set<Id>, links: seq<Link>)
    returns (rank': map<Id, int>)
    requires Growing(edges, c, rank, remaining, links) && Connected(Pairs(edges), c) && remaining != {} && remaining != c
    ensures rank'.Keys == rank.Keys && Growing(edges, c, rank', remaining, links)
    ensures exists v :: v in c - remaining && !NoTight(edges, rank', remaining, v)
    ensures forall x :: x in rank && x !in c ==> rank'[x] == rank[x]
  {
    var minSlack: Option<int> := None;
    var vs := Listing(remaining);
    UptoEnds(vs, remaining);
    assert SlackFound(edges, rank, remaining, minSlack) && LeastAt(edges, rank, remaining, {}, minSlack);
    hide *;
    for i := 0 to |vs|
      invariant Feasible(edges, rank) && SlackFound(edges, rank, remaining, minSlack)
      invariant LeastAt(edges, rank, remaining, Upto(vs, i), minSlack)
    {
      UptoStep(vs, remaining, i);
      ghost var before := minSlack;
      minSlack := SlackAt(edges, rank, remaining, vs[i], minSlack);
      LeastMore(edges, rank, remaining, Upto(vs, i), vs[i], before, minSlack);
    }
    SomeSlack(edges, c, rank, remaining, links, minSlack);
    Moved(edges, c, rank, remaining, links, minSlack.value);
    rank' := map x | x in rank :: if x in c && x !in remaining then rank[x] - minSlack.value else rank[x];
    SameShift(rank, c, remaining, minSlack.value);
  }

  lemma SameShift(rank: map<Id, int>, c: set<Id>, remaining: set<Id>, d: int)
    ensures (map x | x in rank :: if x in c && x !in remaining then rank[x] - d else rank[x]) == Shifted(rank, c - remaining, d)
    ensures Shifted(rank, c - remaining, d).Keys == rank.Keys
    ensures forall x :: x in rank && x !in c ==> Shifted(rank, c - remaining, d)[x] == rank[x]
  {
  }

  lemma SomeSlack(edges: Edges, c: set<Id>, rank: map<Id, int>, remaining: set<Id>, links: seq<Link>, m: Option<int>)
    requires Growing(edges, c, rank, remaining, links) && Connected(Pairs(edges), c) && remaining != {} && remaining != c
    requires LeastAt(edges, rank, remaining, remaining, m)
    ensures m.Some?
  {
    assert Crossed(Pairs(edges), remaining, c);
    var p :| p in Pairs(edges) && ((p.0 in remaining && p.1 in c - remaining) || (p.1 in remaining && p.0 in c - remaining));
    var e :| e in edges && p == (edges[e].u, edges[e].v);
    assert Joins(edges, remaining, e);
  }

  /** After the move every edge is still long enough, every link still tight, and a joining edge is tight. */
  lemma Moved(edges: Edges, c: set<Id>, rank: map<Id, int>, remaining: set<Id>, links: seq<Link>, m: int)
    requires Growing(edges, c, rank, remaining, links) && SlackFound(edges, rank, remaining, Some(m))
    requires LeastAt(edges, rank, remaining, remaining, Some(m))
    ensures var rank' := Shifted(rank, c - remaining, m);
            && Growing(edges, c, rank', remaining, links)
            && exists v :: v in c - remaining && !NoTight(edges, rank', remaining, v)
  {
    var rank' := Shifted(rank, c - remaining, m);
    MovedFeasible(edges, c, rank, remaining, m);
    forall l | l in links ensures TightPair(edges, rank', l.u, l.v) {
      var e :| TightEdge(edges, rank, e) && edges[e].u == l.u && edges[e].v == l.v;
      assert TightEdge(edges, rank', e);
    }
    hide SpansTree;
    var e :| Joins(edges, remaining, e) &&
             m == if edges[e].v in remaining then -SlackOf(edges, rank, e) else SlackOf(edges, rank, e);
    assert TightEdge(edges, rank', e);
    assert TightPair(edges, rank', edges[e].u, edges[e].v);
    var v := if edges[e].v in remaining then edges[e].u else edges[e].v;
    assert v in c - remaining && !NoTight(edges, rank', remaining, v);
  }

  lemma MovedFeasible(edges: Edges, c: set<Id>, rank: map<Id, int>, remaining: set<Id>, m: int)
    requires EndsIn(edges, c) && Feasible(edges, rank) && LeastAt(edges, rank, remaining, remaining, Some(m))
    requires SlackFound(edges, rank, remaining, Some(m))
    ensures Feasible(edges, Shifted(rank, c - remaining, m))
  {
    forall e | e in edges ensures
      var r := Shifted(rank, c - remaining, m); r[edges[e].v] - r[edges[e].u] >= edges[e].value.minLen
    {
      if Joins(edges, remaining, e) {
        assert Abs(m) <= SlackOf(edges, rank, e);
      }
    }
  }

  // ---------- the whole tree ----------

  /** Some edge is tight: the first ranking leaves one in every component with an edge. */
  ghost predicate SomeTight(edges: Edges, rank: map<Id, int>) {
    exists e :: TightEdge(edges, rank, e)
  }

  /** A spanning tree of c by tight links. */
  ghost predicate TightSpanningTree(edges: Edges, c: set<Id>, rank: map<Id, int>, links: seq<Link>) {
    && Feasible(edges, rank)
    && Connected(LinkPairs(links), c) && |links| + 1 == |c|
    && forall l :: l in links ==> l.u in c && l.v in c && TightPair(edges, rank, l.u, l.v)
  }

  /** Some node that the next scan looks at has a tight edge to a remaining node. */
  ghost predicate ScanWillFind(edges: Edges, c: set<Id>, rank: map<Id, int>, remaining: set<Id>) {
    exists v :: MayScan(c, remaining, v) && !NoTight(edges, rank, remaining, v)
  }

  method FeasibleTree(edges: Edges, c: set<Id>, rank0: map<Id, int>) returns (links: seq<Link>, rank: map<Id, int>)
    requires EndsIn(edges, c) && NoSelfLoops(edges) && Feasible(edges, rank0) && c <= rank0.Keys && c != {}
    requires Connected(Pairs(edges), c) && (|c| > 1 ==> SomeTight(edges, rank0))
    ensures rank.Keys == rank0.Keys && forall x :: x in rank0 && x !in c ==> rank[x] == rank0[x]
    ensures TightSpanningTree(edges, c, rank, links)
  {
    links, rank := [], rank0;
    if |c| == 1 {
      Lone(edges, c, rank);
      return;
    }
    var remaining := c;
    FirstScan(edges, c, rank);
    hide *;
    while remaining != {}
      invariant rank.Keys == rank0.Keys && forall x :: x in rank0 && x !in c ==> rank[x] == rank0[x]
      invariant Growing(edges, c, rank, remaining, links) && remaining <= c
      invariant remaining != {} ==> ScanWillFind(edges, c, rank, remaining)
      decreases remaining
    {
      ghost var before := remaining;
      remaining, links := Scan(edges, c, rank, remaining, links);
      if remaining != {} {
        rank := CreateTightEdge(edges, c, rank, remaining, links);
        NextScan(edges, c, rank, remaining);
      }
    }
    Spanned(edges, c, rank, remaining, links);
  }

  /** Scans the tree, or without a tree the remaining nodes, until a tight edge is found. */
  method Scan(edges: Edges, c: set<Id>, rank: map<Id, int>, remaining: set<Id>, links: seq<Link>)
    returns (remaining': set<Id>, links': seq<Link>)
    requires Growing(edges, c, rank, remaining, links) && remaining <= c && ScanWillFind(edges, c, rank, remaining)
    ensures Growing(edges, c, rank, remaining', links') && remaining' < remaining
  {
    hide *;
    var nodesToSearch := Listing(if remaining == c then remaining else c - remaining);
    remaining', links' := remaining, links;
    var i, continueToScan := 0, true;
    while i < |nodesToSearch| && continueToScan
      invariant 0 <= i <= |nodesToSearch| && Growing(edges, c, rank, remaining', links')
      invariant continueToScan ==> remaining' == remaining && links' == links
      invariant continueToScan ==> forall j :: 0 <= j < i ==> NoTight(edges, rank, remaining, nodesToSearch[j])
      invariant !continueToScan ==> remaining' < remaining
    {
      assert nodesToSearch[i] in nodesToSearch;
      Searchable(c, remaining, nodesToSearch[i]);
      continueToScan, remaining', links' := AddTightEdges(edges, c, rank, nodesToSearch[i], remaining', links');
      i := i + 1;
    }
    if continueToScan {
      ScanComplete(edges, c, rank, remaining, nodesToSearch);
    }
  }

  lemma Searchable(c: set<Id>, remaining: set<Id>, v: Id)
    requires v in (if remaining == c then remaining else c - remaining)
    ensures MayScan(c, remaining, v)
  {
  }

  lemma ScanComplete(edges: Edges, c: set<Id>, rank: map<Id, int>, remaining: set<Id>, vs: seq<Id>)
    requires Lists(vs, if remaining == c then remaining else c - remaining)
    requires forall j :: 0 <= j < |vs| ==> NoTight(edges, rank, remaining, vs[j])
    ensures !ScanWillFind(edges, c, rank, remaining)
  {
    hide NoTight;
    forall v | MayScan(c, remaining, v) ensures NoTight(edges, rank, remaining, v) {
      assert v in vs;
    }
  }

  lemma Lone(edges: Edges, c: set<Id>, rank: map<Id, int>)
    requires EndsIn(edges, c) && Feasible(edges, rank) && |c| == 1
    ensures TightSpanningTree(edges, c, rank, [])
  {
    var v :| v in c;
    assert |c - {v}| == 0;
    assert c == {v};
    ConnectedAlone(LinkPairs([]), v);
  }

  lemma FirstScan(edges: Edges, c: set<Id>, rank: map<Id, int>)
    requires EndsIn(edges, c) && NoSelfLoops(edges) && Feasible(edges, rank) && c <= rank.Keys && SomeTight(edges, rank)
    ensures Growing(edges, c, rank, c, []) && ScanWillFind(edges, c, rank, c)
  {
    var e :| TightEdge(edges, rank, e);
    assert TightPair(edges, rank, edges[e].u, edges[e].v);
    assert MayScan(c, c, edges[e].u) && !NoTight(edges, rank, c, edges[e].u);
  }

  lemma NextScan(edges: Edges, c: set<Id>, rank: map<Id, int>, remaining: set<Id>)
    requires exists v :: v in c - remaining && !NoTight(edges, rank, remaining, v)
    ensures ScanWillFind(edges, c, rank, remaining)
  {
    hide NoTight;
    var v :| v in c - remaining && !NoTight(edges, rank, remaining, v);
    assert MayScan(c, remaining, v);
  }

  lemma Spanned(edges: Edges, c: set<Id>, rank: map<Id, int>, remaining: set<Id>, links: seq<Link>)
    requires Growing(edges, c, rank, remaining, links) && remaining == {} && c != {}
    ensures TightSpanningTree(edges, c, rank, links)
  {
    hide Connected, TightPair, Feasible;
    assert c - remaining == c;
  }
}
