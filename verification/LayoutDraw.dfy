/** The middle of the layout: the normalized graph is ordered and gets its four candidate layouts. */
module LayoutDraws {
  import opened Base
  import opened Digraphs
  import opened Acyclics
  import opened LayoutGraphs
  import opened LayoutNormalizes
  import CrossCounts
  import Orders
  import Alignments
  import Placements
  import Positions
  import Conflicts
  import Coordinates

  type Layered = CrossCounts.Layered
  type Rows = Positions.Rows
  type Scene = Conflicts.Scene
  type Setting = Coordinates.Setting

  /** What ordering and positioning compute: the layers, the place of each node in its layer, the x coordinates of the candidates, and the
      final coordinates. */
  datatype Picture = Picture(layers: Layered, order: map<Id, nat>, orderCC: Option<nat>, xss: map<(bool, bool), map<Id, real>>,
                             points: map<Id, Coordinates.Point>)

  function RankOf(a: NodeAttr): nat {
    if a.rank >= 0 then a.rank else 0
  }

  /** The graph in layers. */
  function LayersOf(nodes: Nodes, edges: Edges, height: nat): Layered {
    CrossCounts.Layered(map u | u in nodes :: RankOf(nodes[u]), height, map e | e in edges :: CrossCounts.Segment(edges[e].u, edges[e].v))
  }

  /** height is the number of ranks. */
  ghost predicate IsHeight(nodes: Nodes, height: nat) {
    && (forall n :: n in nodes ==> nodes[n].rank < height)
    && (height > 0 ==> exists n :: n in nodes && nodes[n].rank == height - 1)
  }

  method Height(nodes: Nodes) returns (height: nat)
    requires forall n :: n in nodes ==> nodes[n].rank >= 0
    ensures IsHeight(nodes, height)
  {
    height := 0;
    var us := Listing(nodes.Keys);
    UptoEnds(us, nodes.Keys);
    for i := 0 to |us|
      invariant forall n :: n in Upto(us, i) ==> n in nodes && nodes[n].rank < height
      invariant height > 0 ==> exists n :: n in nodes && nodes[n].rank == height - 1
    {
      UptoStep(us, nodes.Keys, i);
      if height <= nodes[us[i]].rank {
        height := nodes[us[i]].rank + 1;
      }
    }
  }

  /** A normalized graph is layered: every edge leads to the next layer, and no layer is empty. */
  lemma LayersValid(nodes: Nodes, edges: Edges, height: nat)
    requires EndsIn(edges, nodes.Keys) && Filled(nodes, edges) && SpansOne(nodes, edges, {}) && IsHeight(nodes, height)
    ensures LayersOf(nodes, edges, height).Valid()
  {
    var l := LayersOf(nodes, edges, height);
    forall i | 0 <= i < height ensures l.Layer(i) != {} {
      var n :| n in nodes && nodes[n].rank == height - 1;
      NoneLeftOut(nodes, edges, n, i);
      var m :| m in nodes && nodes[m].rank == i;
      assert m in l.Layer(i);
    }
    hide Filled;
    forall e | e in l.edges ensures l.edges[e].u in l.rank && l.edges[e].v in l.rank && l.rank[l.edges[e].v] == l.rank[l.edges[e].u] + 1 {
      assert Span(nodes, edges, e) == 1;
      NotNegative(nodes, edges, edges[e].u);
    }
  }

  lemma NotNegative(nodes: Nodes, edges: Edges, n: Id)
    requires Filled(nodes, edges) && n in nodes
    ensures nodes[n].rank >= 0
  {
  }

  // ---------- rows ----------

  function Ups(l: Layered, v: Id): set<Id> {
    set e | e in l.edges && l.edges[e].v == v :: l.edges[e].u
  }

  function Downs(l: Layered, v: Id): set<Id> {
    set e | e in l.edges && l.edges[e].u == v :: l.edges[e].v
  }

  function RowsOf(l: Layered, order: map<Id, nat>, rows: seq<seq<Id>>, conflicts: set<(Id, Id)>): Rows {
    Positions.Rows(rows, l.rank, order, map v | v in l.rank :: Ups(l, v), map v | v in l.rank :: Downs(l, v), conflicts)
  }

  ghost predicate ReadOff(l: Layered, order: map<Id, nat>, rows: seq<seq<Id>>) {
    |rows| == l.height && forall i: nat :: i < l.height ==> CrossCounts.PlacedAs(rows[i], l.Layer(i), order)
  }

  lemma NodeOfRow(l: Layered, order: map<Id, nat>, rows: seq<seq<Id>>, i: nat, k: nat)
    requires ReadOff(l, order, rows) && i < |rows| && k < |rows[i]|
    ensures rows[i][k] in l.rank && l.rank[rows[i][k]] == i && rows[i][k] in order && order[rows[i][k]] == k
  {
    assert CrossCounts.PlacedAs(rows[i], l.Layer(i), order);
    assert rows[i][k] in rows[i];
    assert rows[i][k] in l.Layer(i);
  }

  lemma RowOfNode(l: Layered, order: map<Id, nat>, rows: seq<seq<Id>>, v: Id)
    requires ReadOff(l, order, rows) && l.Valid() && v in l.rank
    ensures v in order && l.rank[v] < |rows| && order[v] < |rows[l.rank[v]]| && rows[l.rank[v]][order[v]] == v
  {
    var i := l.rank[v];
    assert CrossCounts.PlacedAs(rows[i], l.Layer(i), order);
    assert v in l.Layer(i);
    var k :| 0 <= k < |rows[i]| && rows[i][k] == v;
  }

  lemma NextUp(l: Layered, v: Id, u: Id)
    requires l.Valid() && v in l.rank && u in Ups(l, v)
    ensures u in l.rank && l.rank[u] + 1 == l.rank[v]
  {
    var e :| e in l.edges && l.edges[e].v == v && l.edges[e].u == u;
  }

  lemma NextDown(l: Layered, v: Id, u: Id)
    requires l.Valid() && v in l.rank && u in Downs(l, v)
    ensures u in l.rank && l.rank[v] + 1 == l.rank[u]
  {
    var e :| e in l.edges && l.edges[e].u == v && l.edges[e].v == u;
  }

  lemma RowsParts(l: Layered, order: map<Id, nat>, rows: seq<seq<Id>>, conflicts: set<(Id, Id)>)
    requires order.Keys == l.rank.Keys
    ensures var g := RowsOf(l, order, rows, conflicts);
      && g.rows == rows && g.pos == order && g.layer == l.rank && g.preds.Keys == g.succs.Keys == l.rank.Keys && g.conflicts == conflicts && g.Keyed()
      && (forall v :: v in l.rank ==> g.L(v) == l.rank[v] && g.P(v) == order[v])
      && (forall v :: v in l.rank ==> g.preds[v] == Ups(l, v) && g.succs[v] == Downs(l, v))
      && (forall i: nat, k: nat :: g.In(i, k) <==> i < |rows| && k < |rows[i]|)
  {
    hide Ups, Downs;
  }

  /** An edge is seen from both its ends. */
  lemma RowsMirrored(l: Layered, order: map<Id, nat>, rows: seq<seq<Id>>, conflicts: set<(Id, Id)>)
    requires order.Keys == l.rank.Keys
    ensures RowsOf(l, order, rows, conflicts).Mirrored()
  {
    var g := RowsOf(l, order, rows, conflicts);
    forall v, u | v in g.pos && u in g.pos ensures u in g.preds[v] <==> v in g.succs[u] {
      if u in Ups(l, v) {
        var e :| e in l.edges && l.edges[e].v == v && l.edges[e].u == u;
        assert v in Downs(l, u);
      }
      if v in Downs(l, u) {
        var e :| e in l.edges && l.edges[e].u == u && l.edges[e].v == v;
        assert u in Ups(l, v);
      }
    }
  }

  lemma RowsSpotted(l: Layered, order: map<Id, nat>, rows: seq<seq<Id>>, conflicts: set<(Id, Id)>)
    requires l.Valid() && order.Keys == l.rank.Keys && ReadOff(l, order, rows)
    ensures var g := RowsOf(l, order, rows, conflicts);
      && g.rows == rows
      && (forall i: nat, k: nat :: g.In(i, k) ==>
            i < |rows| && k < |rows[i]| && rows[i][k] in g.pos && g.L(rows[i][k]) == i && g.P(rows[i][k]) == k)
      && (forall v :: v in g.pos ==> g.In(g.L(v), g.P(v)) && g.L(v) < |rows| && g.P(v) < |rows[g.L(v)]| && rows[g.L(v)][g.P(v)] == v)
  {
    hide *;
    var g := RowsOf(l, order, rows, conflicts);
    RowsParts(l, order, rows, conflicts);
    forall i: nat, k: nat | g.In(i, k) ensures rows[i][k] in g.pos && g.L(rows[i][k]) == i && g.P(rows[i][k]) == k {
      NodeOfRow(l, order, rows, i, k);
    }
    forall v | v in g.pos ensures g.In(g.L(v), g.P(v)) && g.L(v) < |rows| && g.P(v) < |rows[g.L(v)]| && rows[g.L(v)][g.P(v)] == v {
      RowOfNode(l, order, rows, v);
    }
  }

  lemma RowsJoined(l: Layered, order: map<Id, nat>, rows: seq<seq<Id>>, conflicts: set<(Id, Id)>)
    requires l.Valid() && order.Keys == l.rank.Keys
    ensures var g := RowsOf(l, order, rows, conflicts);
      && g.Keyed()
      && (forall v, u :: v in g.pos && v in g.preds && u in g.preds[v] ==> u in g.pos && g.L(u) + 1 == g.L(v))
      && (forall v, u :: v in g.pos && v in g.succs && u in g.succs[v] ==> u in g.pos && g.L(v) + 1 == g.L(u))
  {
    hide *;
    var g := RowsOf(l, order, rows, conflicts);
    RowsParts(l, order, rows, conflicts);
    forall v, u | v in g.pos && v in g.preds && u in g.preds[v] ensures u in g.pos && g.L(u) + 1 == g.L(v) {
      NextUp(l, v, u);
    }
    forall v, u | v in g.pos && v in g.succs && u in g.succs[v] ensures u in g.pos && g.L(v) + 1 == g.L(u) {
      NextDown(l, v, u);
    }
  }

  /** The rows are a layering. */
  lemma RowsValid(l: Layered, order: map<Id, nat>, rows: seq<seq<Id>>, conflicts: set<(Id, Id)>)
    requires l.Valid() && order.Keys == l.rank.Keys && ReadOff(l, order, rows)
    ensures RowsOf(l, order, rows, conflicts).Valid()
  {
    hide *;
    RowsSpotted(l, order, rows, conflicts);
    RowsJoined(l, order, rows, conflicts);
    RowsMirrored(l, order, rows, conflicts);
    Positions.RowsMade(RowsOf(l, order, rows, conflicts));
  }

  // ---------- drawing ----------

  /** xs is what alignment and compaction make of the rows in one direction. */
  ghost predicate IsCandidate(g: Rows, sep: Id -> real, down: bool, flip: bool, xs: map<Id, real>) {
    exists d: Placements.Drawing, up: map<Id, Id> ::
      && d.s == g.View(down, flip) && d.sep == sep && Alignments.Aligned(d.s, up, d.root, d.align)
      && Positions.Separated(g, d, xs) && Positions.TurnedBack(d, flip, xs)
  }

  /** The scene is that of the rows in the order found and of the dummies among the nodes; conflicts are the edges that it marks. */
  ghost predicate IsScene(l: Layered, order: map<Id, nat>, nodes: Nodes, s: Scene, conflicts: set<(Id, Id)>) {
    && s.Valid() && s.dummy == Dummies(nodes) && s.g == RowsOf(l, order, s.g.rows, {}) && ReadOff(l, order, s.g.rows)
    && forall w, v :: (w, v) in conflicts <==> s.Marked(w, v)
  }

  /** The four candidates are there. */
  ghost predicate AllCandidates(g: Rows, sep: Id -> real, xss: map<(bool, bool), map<Id, real>>) {
    forall down, flip :: (down, flip) in xss && IsCandidate(g, sep, down, flip, xss[(down, flip)])
  }

  function Dummies(nodes: Nodes): set<Id> {
    set n | n in nodes && nodes[n].edge.Some?
  }

  /** The arrangement is what the order phase comes to: the best that any of its sweeps has led to. */
  ghost predicate Ordered(p: Picture, maxSweeps: nat, restarts: nat) {
    exists trace :: Orders.Traced(p.layers, trace, maxSweeps, restarts) && Orders.Outcome(p.layers, trace, maxSweeps, p.order, p.orderCC)
  }

  /** The rows of the scene get four candidates for the x coordinates, each straight in its blocks and wide enough for all neighbours, and
      from them the final coordinates. */
  ghost predicate Positioned(p: Picture, nodes: Nodes, s: Scene, conflicts: set<(Id, Id)>, setting: Setting) {
    var g, dummies := s.g.(conflicts := conflicts), Dummies(nodes);
    && IsScene(p.layers, p.order, nodes, s, conflicts) && AllCandidates(g, setting.Room(dummies), p.xss)
    && g.Valid() && Coordinates.Finished(g, setting, dummies, p.xss, p.points)
  }

  /** The picture shows the graph: in layers, with a best arrangement that was met, and with coordinates from the four candidates. */
  ghost predicate Shows(p: Picture, nodes: Nodes, edges: Edges, maxSweeps: nat, restarts: nat, setting: Setting) {
    && p.layers == LayersOf(nodes, edges, p.layers.height) && CrossCounts.Drawn(p.layers, p.order)
    && Ordered(p, maxSweeps, restarts)
    && exists s, conflicts :: Positioned(p, nodes, s, conflicts, setting)
  }

  lemma LayerOf(nodes: Nodes, edges: Edges, height: nat, u: Id)
    requires u in nodes && nodes[u].rank >= 0
    ensures u in LayersOf(nodes, edges, height).rank && LayersOf(nodes, edges, height).rank[u] == nodes[u].rank
  {
  }

  lemma LayerNodes(nodes: Nodes, edges: Edges, height: nat)
    ensures LayersOf(nodes, edges, height).rank.Keys == nodes.Keys
  {
  }

  lemma LayersShown(p: Picture, nodes: Nodes, edges: Edges, maxSweeps: nat, restarts: nat, setting: Setting)
    requires Shows(p, nodes, edges, maxSweeps, restarts, setting)
    ensures p.layers == LayersOf(nodes, edges, p.layers.height)
  {
    hide LayersOf, CrossCounts.Drawn, Ordered, Positioned;
  }

  /** In the picture no two nodes overlap. */
  lemma PictureClear(p: Picture, nodes: Nodes, edges: Edges, maxSweeps: nat, restarts: nat, setting: Setting, u: Id, v: Id)
    requires Shows(p, nodes, edges, maxSweeps, restarts, setting) && Coordinates.Proper(setting) && u in nodes && v in nodes && u != v
    ensures u in p.points && v in p.points && Coordinates.Disjoint(setting, p.points, u, v)
  {
    hide *;
    var s, conflicts := SceneShown(p, nodes, edges, maxSweeps, restarts, setting);
    PositionedParts(p, nodes, s, conflicts, setting);
    LayersShown(p, nodes, edges, maxSweeps, restarts, setting);
    InLayers(nodes, edges, p.layers.height, u);
    InLayers(nodes, edges, p.layers.height, v);
    DrawnKeys(p.layers, p.order);
    Coordinates.NoOverlap(s.g.(conflicts := conflicts), setting, Dummies(nodes), p.xss, p.points, u, v);
  }

  lemma PositionedParts(p: Picture, nodes: Nodes, s: Scene, conflicts: set<(Id, Id)>, setting: Setting)
    requires Positioned(p, nodes, s, conflicts, setting)
    ensures var g := s.g.(conflicts := conflicts);
      g.Valid() && g.pos == p.order && g.layer == p.layers.rank && Coordinates.Finished(g, setting, Dummies(nodes), p.xss, p.points)
  {
    hide AllCandidates, Coordinates.Finished, Dummies, ReadOff, Positions.Rows.Valid, Conflicts.Scene.Valid, Conflicts.Scene.Marked;
  }

  /** In the picture, a node of a later layer is ahead of one of an earlier layer, by the separation of the ranks for each layer. */
  lemma PictureAhead(p: Picture, nodes: Nodes, edges: Edges, maxSweeps: nat, restarts: nat, setting: Setting, u: Id, v: Id)
    requires Shows(p, nodes, edges, maxSweeps, restarts, setting) && Coordinates.Proper(setting)
    requires u in p.layers.rank && v in p.layers.rank && p.layers.rank[u] <= p.layers.rank[v]
    ensures u in p.points && v in p.points
    ensures Coordinates.Ahead(setting, p.points, u, v) >= Coordinates.Times(p.layers.rank[v] - p.layers.rank[u], setting.rankSep)
  {
    hide *;
    var s, conflicts := SceneShown(p, nodes, edges, maxSweeps, restarts, setting);
    PositionedParts(p, nodes, s, conflicts, setting);
    DrawnKeys(p.layers, p.order);
    var g := s.g.(conflicts := conflicts);
    LayersRead(g, p.layers.rank, u);
    LayersRead(g, p.layers.rank, v);
    Coordinates.LaterAhead(g, setting, Dummies(nodes), p.xss, p.points, u, v);
  }

  lemma SceneShown(p: Picture, nodes: Nodes, edges: Edges, maxSweeps: nat, restarts: nat, setting: Setting)
    returns (s: Scene, conflicts: set<(Id, Id)>)
    requires Shows(p, nodes, edges, maxSweeps, restarts, setting)
    ensures Positioned(p, nodes, s, conflicts, setting) && CrossCounts.Drawn(p.layers, p.order)
  {
    hide Ordered, Positioned, CrossCounts.Drawn, LayersOf;
    s, conflicts :| Positioned(p, nodes, s, conflicts, setting);
  }

  /** The dummies are the nodes that are not in the graph which is represented. */
  lemma DummiesAre(core: Edges, orig: set<Id>, nodes: Nodes, edges: Edges)
    requires Represents(core, orig, nodes, edges)
    ensures Dummies(nodes) == nodes.Keys - orig
  {
    forall n | n in nodes ensures nodes[n].edge.Some? <==> n !in orig {
      assert n in orig <==> Plain(nodes, n);
    }
  }

  /** In the picture, neighbours in a layer keep their least distance. */
  lemma PictureGap(p: Picture, nodes: Nodes, edges: Edges, maxSweeps: nat, restarts: nat, setting: Setting, u: Id, v: Id)
    requires Shows(p, nodes, edges, maxSweeps, restarts, setting) && u in p.layers.rank && v in p.layers.rank && u in p.order && v in p.order
    requires p.layers.rank[u] == p.layers.rank[v] && p.order[v] == p.order[u] + 1
    ensures u in p.points && v in p.points
    ensures (if setting.rankDir == Coordinates.LR || setting.rankDir == Coordinates.RL then p.points[v].y - p.points[u].y else p.points[v].x - p.points[u].x)
            >= Coordinates.LeastGap(setting, Dummies(nodes), u, v)
  {
    hide *;
    var s, conflicts := SceneShown(p, nodes, edges, maxSweeps, restarts, setting);
    PositionedParts(p, nodes, s, conflicts, setting);
    NextTo(s.g.(conflicts := conflicts), p.layers.rank, p.order, u, v);
    Coordinates.NeighboursApart(s.g.(conflicts := conflicts), setting, Dummies(nodes), p.xss, p.points, u, v);
  }

  lemma NextTo(g: Rows, rank: map<Id, nat>, order: map<Id, nat>, u: Id, v: Id)
    requires g.layer == rank && g.pos == order && u in rank && v in rank && u in order && v in order
    requires rank[u] == rank[v] && order[v] == order[u] + 1
    ensures g.Adjacent(u, v)
  {
  }

  lemma LayersRead(g: Rows, rank: map<Id, nat>, u: Id)
    requires g.layer == rank && u in rank
    ensures g.L(u) == rank[u]
  {
  }

  lemma InLayers(nodes: Nodes, edges: Edges, height: nat, u: Id)
    requires u in nodes
    ensures u in LayersOf(nodes, edges, height).rank
  {
  }

  lemma DrawnKeys(l: Layered, order: map<Id, nat>)
    requires CrossCounts.Drawn(l, order)
    ensures order.Keys == l.rank.Keys
  {
  }

  /** The predecessor of each node that is listed first. */
  method FirstPreds(g: Rows) returns (first: map<Id, Id>)
    requires g.Valid()
    ensures forall w :: w in g.pos ==> w in g.preds && if g.preds[w] == {} then w !in first else w in first && first[w] in g.preds[w]
  {
    first := map[];
    var us := Listing(g.pos.Keys);
    UptoEnds(us, g.pos.Keys);
    assert g.preds.Keys == g.pos.Keys;
    hide *;
    for i := 0 to |us|
      invariant first.Keys <= Upto(us, i)
      invariant forall w :: w in Upto(us, i) ==> w in g.preds && if g.preds[w] == {} then w !in first else w in first && first[w] in g.preds[w]
    {
      UptoStep(us, g.pos.Keys, i);
      if u :| u in g.preds[us[i]] {
        first := first[us[i] := u];
      }
    }
  }

  lemma CandidateIs(g: Rows, sep: Id -> real, down: bool, flip: bool, xs: map<Id, real>, d: Placements.Drawing, up: map<Id, Id>)
    requires d.s == g.View(down, flip) && d.sep == sep && Alignments.Aligned(d.s, up, d.root, d.align)
    requires Positions.Separated(g, d, xs) && Positions.TurnedBack(d, flip, xs)
    ensures IsCandidate(g, sep, down, flip, xs)
  {
    hide Alignments.Aligned, Positions.Separated, Positions.TurnedBack, Positions.Rows.View;
  }

  lemma SceneIs(l: Layered, order: map<Id, nat>, nodes: Nodes, rows: seq<seq<Id>>, first: map<Id, Id>)
    requires l.Valid() && order.Keys == l.rank.Keys && ReadOff(l, order, rows)
    requires var g := RowsOf(l, order, rows, {});
      forall w :: w in g.pos ==> w in g.preds && if g.preds[w] == {} then w !in first else w in first && first[w] in g.preds[w]
    ensures Conflicts.Scene(RowsOf(l, order, rows, {}), Dummies(nodes), first).Valid()
  {
    RowsValid(l, order, rows, {});
    hide Positions.Rows.Valid, RowsOf, ReadOff, Dummies;
  }

  lemma SceneFound(l: Layered, order: map<Id, nat>, nodes: Nodes, s: Scene, conflicts: set<(Id, Id)>)
    requires s.Valid() && s.dummy == Dummies(nodes) && s.g == RowsOf(l, order, s.g.rows, {}) && ReadOff(l, order, s.g.rows)
    requires forall w, v :: (w, v) in conflicts <==> s.Marked(w, v)
    ensures IsScene(l, order, nodes, s, conflicts)
  {
    hide Conflicts.Scene.Valid, Conflicts.Scene.Marked, RowsOf, ReadOff, Dummies;
  }

  lemma AllThere(g: Rows, sep: Id -> real, xss: map<(bool, bool), map<Id, real>>)
    requires (false, false) in xss && IsCandidate(g, sep, false, false, xss[(false, false)])
    requires (false, true) in xss && IsCandidate(g, sep, false, true, xss[(false, true)])
    requires (true, false) in xss && IsCandidate(g, sep, true, false, xss[(true, false)])
    requires (true, true) in xss && IsCandidate(g, sep, true, true, xss[(true, true)])
    ensures AllCandidates(g, sep, xss)
  {
    hide IsCandidate;
    forall down, flip ensures (down, flip) in xss && IsCandidate(g, sep, down, flip, xss[(down, flip)]) {
      assert (down && (flip || !flip)) || (!down && (flip || !flip));
    }
  }

  /** One candidate. */
  method OneCandidate(g: Rows, sep: Id -> real, down: bool, flip: bool) returns (xs: map<Id, real>)
    requires g.Valid()
    ensures IsCandidate(g, sep, down, flip, xs)
  {
    hide *;
    var d: Placements.Drawing;
    ghost var up;
    xs, d, up := Positions.Candidate(g, sep, down, flip);
    CandidateIs(g, sep, down, flip, xs, d, up);
  }

  /** From the order of the rows to the coordinates. */
  method Place(l: Layered, order: map<Id, nat>, nodes: Nodes, setting: Setting)
    returns (xss: map<(bool, bool), map<Id, real>>, points: map<Id, Coordinates.Point>, ghost s: Scene, ghost conflicts: set<(Id, Id)>)
    requires CrossCounts.Drawn(l, order) && l.height > 0
    ensures IsScene(l, order, nodes, s, conflicts) && AllCandidates(s.g.(conflicts := conflicts), setting.Room(Dummies(nodes)), xss)
    ensures s.g.(conflicts := conflicts).Valid() && Coordinates.Finished(s.g.(conflicts := conflicts), setting, Dummies(nodes), xss, points)
  {
    hide *;
    var sep := setting.Room(Dummies(nodes));
    var rows := CrossCounts.Ordering(l, order);
    DrawnParts(l, order, rows);
    RowsValid(l, order, rows, {});
    var g := RowsOf(l, order, rows, {});
    var first := FirstPreds(g);
    SceneIs(l, order, nodes, rows, first);
    var scene := Conflicts.Scene(g, Dummies(nodes), first);
    var found := Conflicts.FindConflicts(scene);
    RowsParts(l, order, rows, {});
    SceneFound(l, order, nodes, scene, found);
    s, conflicts := scene, found;
    SameRows(l, order, rows, found);
    RowsValid(l, order, rows, found);
    var g' := g.(conflicts := found);
    var xs := OneCandidate(g', sep, false, false);
    var xs1 := OneCandidate(g', sep, false, true);
    var xs2 := OneCandidate(g', sep, true, false);
    var xs3 := OneCandidate(g', sep, true, true);
    xss := map[(false, false) := xs, (false, true) := xs1, (true, false) := xs2, (true, true) := xs3];
    AllThere(g', sep, xss);
    RowsFull(l, order, rows, found);
    CandidatesSpread(g', sep, xss);
    points := Coordinates.Finish(g', setting, Dummies(nodes), xss);
  }

  /** No row is empty. */
  lemma RowsFull(l: Layered, order: map<Id, nat>, rows: seq<seq<Id>>, conflicts: set<(Id, Id)>)
    requires l.Valid() && l.height > 0 && ReadOff(l, order, rows)
    ensures Coordinates.Full(RowsOf(l, order, rows, conflicts))
  {
    forall i: nat | i < |rows| ensures rows[i] != [] {
      assert CrossCounts.PlacedAs(rows[i], l.Layer(i), order) && l.Layer(i) != {};
      var u :| u in l.Layer(i);
    }
  }

  lemma CandidatesSpread(g: Rows, sep: Id -> real, xss: map<(bool, bool), map<Id, real>>)
    requires AllCandidates(g, sep, xss)
    requires g.Valid()
    ensures Coordinates.AllSpread(g, sep, xss)
  {
    hide Positions.Rows.Valid, Coordinates.Spread, IsCandidate;
    forall a: (bool, bool) ensures a in xss && Coordinates.Spread(g, sep, xss[a]) {
      OneOfAll(g, sep, xss, a.0, a.1);
      assert a == (a.0, a.1);
      CandidateSpread(g, sep, a.0, a.1, xss[a]);
    }
  }

  lemma OneOfAll(g: Rows, sep: Id -> real, xss: map<(bool, bool), map<Id, real>>, down: bool, flip: bool)
    requires AllCandidates(g, sep, xss)
    ensures (down, flip) in xss && IsCandidate(g, sep, down, flip, xss[(down, flip)])
  {
    hide IsCandidate;
  }

  lemma CandidateSpread(g: Rows, sep: Id -> real, down: bool, flip: bool, xs: map<Id, real>)
    requires g.Valid() && IsCandidate(g, sep, down, flip, xs)
    ensures Coordinates.Spread(g, sep, xs)
  {
    hide Positions.Rows.Valid, Positions.Rows.View, Positions.TurnedBack, Alignments.Aligned;
    forall u, v | g.Adjacent(u, v) ensures u in g.pos && v in g.pos {
      Coordinates.AdjacentThere(g, u, v);
    }
  }

  lemma SameRows(l: Layered, order: map<Id, nat>, rows: seq<seq<Id>>, conflicts: set<(Id, Id)>)
    ensures RowsOf(l, order, rows, {}).(conflicts := conflicts) == RowsOf(l, order, rows, conflicts)
  {
  }

  lemma DrawnParts(l: Layered, order: map<Id, nat>, rows: seq<seq<Id>>)
    requires CrossCounts.Drawn(l, order)
    requires |rows| == l.height && forall i: nat :: i < l.height ==> CrossCounts.PlacedAs(rows[i], l.Layer(i), order)
    ensures l.Valid() && order.Keys == l.rank.Keys && ReadOff(l, order, rows)
  {
    hide CrossCounts.Layered.Valid, CrossCounts.Layered.Layer, CrossCounts.PlacedAs, CrossCounts.Placed;
  }

  /** Ordering and positioning: what they ask for is what normalization has made of the graph. */
  method Draw(nodes: Nodes, edges: Edges, maxSweeps: nat, restarts: nat, setting: Setting) returns (p: Picture)
    requires nodes != map[] && EndsIn(edges, nodes.Keys) && Filled(nodes, edges) && SpansOne(nodes, edges, {})
    ensures Shows(p, nodes, edges, maxSweeps, restarts, setting)
  {
    hide *;
    NoneNegative(nodes, edges);
    var height := Height(nodes);
    LayersValid(nodes, edges, height);
    var l := LayersOf(nodes, edges, height);
    var order, orderCC;
    ghost var trace;
    order, orderCC, trace := Orders.Order(l, maxSweeps, restarts);
    HeightIs(nodes, edges, height);
    HeightPositive(nodes, height);
    var xss, points;
    ghost var s, conflicts;
    xss, points, s, conflicts := Place(l, order, nodes, setting);
    p := Picture(l, order, orderCC, xss, points);
    OrderedSo(p, maxSweeps, restarts, trace);
    PositionedSo(p, nodes, s, conflicts, setting);
    ShowsSo(p, nodes, edges, maxSweeps, restarts, setting, s, conflicts);
  }

  lemma NoneNegative(nodes: Nodes, edges: Edges)
    requires Filled(nodes, edges)
    ensures forall n :: n in nodes ==> nodes[n].rank >= 0
  {
  }

  lemma HeightIs(nodes: Nodes, edges: Edges, height: nat)
    ensures LayersOf(nodes, edges, height).height == height
  {
  }

  lemma OrderedSo(p: Picture, maxSweeps: nat, restarts: nat, trace: seq<Orders.Run>)
    requires Orders.Traced(p.layers, trace, maxSweeps, restarts) && Orders.Outcome(p.layers, trace, maxSweeps, p.order, p.orderCC)
    ensures Ordered(p, maxSweeps, restarts)
  {
    hide Orders.Traced, Orders.Outcome;
  }

  lemma HeightPositive(nodes: Nodes, height: nat)
    requires nodes != map[] && IsHeight(nodes, height) && forall n :: n in nodes ==> nodes[n].rank >= 0
    ensures height > 0
  {
    var n :| n in nodes;
  }

  lemma PositionedSo(p: Picture, nodes: Nodes, s: Scene, conflicts: set<(Id, Id)>, setting: Setting)
    requires IsScene(p.layers, p.order, nodes, s, conflicts) && AllCandidates(s.g.(conflicts := conflicts), setting.Room(Dummies(nodes)), p.xss)
    requires s.g.(conflicts := conflicts).Valid()
    requires Coordinates.Finished(s.g.(conflicts := conflicts), setting, Dummies(nodes), p.xss, p.points)
    ensures Positioned(p, nodes, s, conflicts, setting)
  {
    hide IsScene, AllCandidates, Positions.Rows.Valid, Coordinates.Finished, Dummies;
  }

  lemma ShowsSo(p: Picture, nodes: Nodes, edges: Edges, maxSweeps: nat, restarts: nat, setting: Setting, s: Scene, conflicts: set<(Id, Id)>)
    requires p.layers == LayersOf(nodes, edges, p.layers.height) && CrossCounts.Drawn(p.layers, p.order)
    requires Ordered(p, maxSweeps, restarts) && Positioned(p, nodes, s, conflicts, setting)
    ensures Shows(p, nodes, edges, maxSweeps, restarts, setting)
  {
    hide CrossCounts.Drawn, Ordered, Positioned, LayersOf;
  }
}
