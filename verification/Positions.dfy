/** One of the four candidate layouts that the positions are chosen from: alignment and compaction on the layers seen from above or from
    below, and from the left or from the right. */
module Positions {
  import opened Base
  import opened Digraphs
  import opened Alignments
  import opened Blocks
  import opened Placements
  import opened Compactions

  /** Rows of nodes; every edge leads from one row to the next. */
  datatype Rows = Rows(rows: seq<seq<Id>>, layer: map<Id, nat>, pos: map<Id, nat>, preds: map<Id, set<Id>>, succs: map<Id, set<Id>>,
                       conflicts: set<(Id, Id)>) {
    function L(v: Id): nat {
      if v in layer then layer[v] else 0
    }

    function P(v: Id): nat {
      if v in pos then pos[v] else 0
    }

    ghost predicate In(i: nat, k: nat) {
      i < |rows| && k < |rows[i]|
    }

    ghost predicate Keyed() {
      layer.Keys == pos.Keys == preds.Keys == succs.Keys
    }

    ghost predicate Valid() {
      && Keyed()
      && (forall i: nat, k: nat :: In(i, k) ==> rows[i][k] in pos && L(rows[i][k]) == i && P(rows[i][k]) == k)
      && (forall v :: v in pos ==> In(L(v), P(v)) && rows[L(v)][P(v)] == v)
      && (forall v, u :: v in pos && v in preds && u in preds[v] ==> u in pos && L(u) + 1 == L(v))
      && (forall v, u :: v in pos && v in succs && u in succs[v] ==> u in pos && L(v) + 1 == L(u))
      && Mirrored()
    }

    /** Predecessors and successors are two sides of the same edges. */
    ghost predicate Mirrored() {
      forall v, u :: v in pos && u in pos && v in preds && u in succs ==> (u in preds[v] <==> v in succs[u])
    }

    function Row(i: nat, down: bool): nat {
      if down && i < |rows| then |rows| - 1 - i else i
    }

    function Place(i: nat, k: nat, flip: bool): nat {
      if flip && i < |rows| && k < |rows[i]| then |rows[i]| - 1 - k else k
    }

    function RowsSeen(down: bool, flip: bool): seq<seq<Id>> {
      seq(|rows|, i requires 0 <= i < |rows| => Turned(rows[Row(i, down)], flip))
    }

    /** The layering with its rows in reverse if down, and each row in reverse if flip. */
    function View(down: bool, flip: bool): Sheet {
      Sheet(RowsSeen(down, flip), map v | v in layer :: Row(L(v), down), map v | v in pos :: Place(L(v), P(v), flip),
            if down then succs else preds, conflicts)
    }

    /** v is the next to the right of u. */
    ghost predicate Adjacent(u: Id, v: Id) {
      u in pos && v in pos && L(u) == L(v) && P(v) == P(u) + 1
    }
  }

  function Turned(row: seq<Id>, flip: bool): (r: seq<Id>)
    ensures |r| == |row| && forall k :: 0 <= k < |row| ==> r[k] == row[if flip then |row| - 1 - k else k]
  {
    if flip then seq(|row|, k requires 0 <= k < |row| => row[|row| - 1 - k]) else row
  }

  lemma RowsMade(g: Rows)
    requires g.Keyed()
    requires forall i: nat, k: nat :: g.In(i, k) ==>
      i < |g.rows| && k < |g.rows[i]| && g.rows[i][k] in g.pos && g.L(g.rows[i][k]) == i && g.P(g.rows[i][k]) == k
    requires forall v :: v in g.pos ==> g.In(g.L(v), g.P(v)) && g.L(v) < |g.rows| && g.P(v) < |g.rows[g.L(v)]| && g.rows[g.L(v)][g.P(v)] == v
    requires forall v, u :: v in g.pos && v in g.preds && u in g.preds[v] ==> u in g.pos && g.L(u) + 1 == g.L(v)
    requires forall v, u :: v in g.pos && v in g.succs && u in g.succs[v] ==> u in g.pos && g.L(v) + 1 == g.L(u)
    requires g.Mirrored()
    ensures g.Valid()
  {
    hide Rows.L, Rows.P, Rows.In, Rows.Mirrored, Rows.Keyed;
  }

  lemma RowThere(g: Rows, v: Id)
    requires g.Valid() && v in g.pos
    ensures g.L(v) < |g.rows| && g.P(v) < |g.rows[g.L(v)]| && g.rows[g.L(v)][g.P(v)] == v
  {
    hide Rows.L, Rows.P;
    assert g.In(g.L(v), g.P(v));
  }

  lemma PlaceIn(g: Rows, i: nat, k: nat)
    requires g.Valid() && i < |g.rows| && k < |g.rows[i]|
    ensures g.rows[i][k] in g.pos && g.L(g.rows[i][k]) == i && g.P(g.rows[i][k]) == k
  {
    hide Rows.L, Rows.P;
    assert g.In(i, k);
  }

  lemma SameSpot(g: Rows, u: Id, w: Id)
    requires g.Valid() && u in g.pos && w in g.pos && g.L(u) == g.L(w) && g.P(u) == g.P(w)
    ensures u == w
  {
    assert g.rows[g.L(u)][g.P(u)] == u && g.rows[g.L(w)][g.P(w)] == w;
  }

  lemma InRows(g: Rows)
    ensures forall i: nat, k: nat :: g.In(i, k) ==> i < |g.rows| && k < |g.rows[i]|
  {
  }

  lemma SeenAt(g: Rows, down: bool, flip: bool, v: Id)
    requires g.Valid() && v in g.pos
    ensures var s := g.View(down, flip);
      v in s.pos && v in s.layer && s.L(v) == g.Row(g.L(v), down) && s.P(v) == g.Place(g.L(v), g.P(v), flip)
  {
    hide Rows.RowsSeen, Rows.Row, Rows.Place, Rows.L, Rows.P, Rows.In;
  }

  /** Each row of the view is a row of the layers, turned. */
  lemma RowSeen(g: Rows, down: bool, flip: bool, i: nat)
    requires i < |g.rows|
    ensures var s, r := g.View(down, flip), g.Row(i, down);
      r < |g.rows| == |s.layering| && g.Row(r, down) == i && s.layering[r] == Turned(g.rows[i], flip)
  {
  }

  /** Where the view shows a node. */
  lemma Seen(g: Rows, down: bool, flip: bool, v: Id)
    requires g.Valid() && v in g.pos
    ensures var s := g.View(down, flip);
      v in s.pos && v in s.layer && s.L(v) == g.Row(g.L(v), down) && s.P(v) == g.Place(g.L(v), g.P(v), flip)
      && s.In(s.L(v), s.P(v)) && s.L(v) < |s.layering| && s.P(v) < |s.layering[s.L(v)]| == |g.rows[g.L(v)]|
      && s.layering[s.L(v)][s.P(v)] == v
  {
    hide *;
    RowThere(g, v);
    SeenAt(g, down, flip, v);
    RowSeen(g, down, flip, g.L(v));
    TurnedAt(g, g.L(v), g.P(v), flip);
    InMade(g.View(down, flip), g.Row(g.L(v), down), g.Place(g.L(v), g.P(v), flip));
  }

  /** A row, turned, shows the node of place k at its new place. */
  lemma TurnedAt(g: Rows, i: nat, k: nat, flip: bool)
    requires i < |g.rows| && k < |g.rows[i]|
    ensures var r := Turned(g.rows[i], flip);
      |r| == |g.rows[i]| && g.Place(i, k, flip) < |r| && r[g.Place(i, k, flip)] == g.rows[i][k] && g.Place(i, g.Place(i, k, flip), flip) == k
  {
  }

  lemma InMade(s: Sheet, i: nat, k: nat)
    requires i < |s.layering| && k < |s.layering[i]|
    ensures s.In(i, k)
  {
  }

  /** Which node the view shows in a place. */
  lemma Shown(g: Rows, down: bool, flip: bool, i: nat, k: nat)
    requires g.Valid() && g.View(down, flip).In(i, k)
    ensures var s := g.View(down, flip); s.layering[i][k] in g.pos && s.L(s.layering[i][k]) == i && s.P(s.layering[i][k]) == k
  {
    hide *;
    var r := g.Row(i, down);
    SameHeight(g, down, flip);
    InSheet(g.View(down, flip), i, k);
    RowSeen(g, down, flip, i);
    RowSeen(g, down, flip, r);
    TurnedSize(g.rows[r], flip);
    TurnedAt(g, r, k, flip);
    PlaceIn(g, r, g.Place(r, k, flip));
    TurnedAt(g, r, g.Place(r, k, flip), flip);
    SeenAt(g, down, flip, g.rows[r][g.Place(r, k, flip)]);
  }

  lemma TurnedSize(row: seq<Id>, flip: bool)
    ensures |Turned(row, flip)| == |row|
  {
  }

  lemma SameHeight(g: Rows, down: bool, flip: bool)
    ensures |g.View(down, flip).layering| == |g.rows|
  {
  }

  lemma ViewKeys(g: Rows, down: bool, flip: bool)
    requires g.Valid()
    ensures var s := g.View(down, flip); s.pos.Keys == s.layer.Keys == s.related.Keys == g.pos.Keys
  {
  }

  lemma RelatedSeen(g: Rows, down: bool, flip: bool)
    ensures g.View(down, flip).related == if down then g.succs else g.preds
  {
  }

  lemma SeenNext(g: Rows, down: bool, flip: bool, v: Id, u: Id)
    requires g.Valid() && v in g.pos && v in g.View(down, flip).related && u in g.View(down, flip).related[v]
    ensures u in g.pos && g.View(down, flip).L(u) + 1 == g.View(down, flip).L(v)
  {
    hide *;
    RelatedSeen(g, down, flip);
    SeenAt(g, down, flip, v);
    NextRow(g, down, v, u);
    SeenAt(g, down, flip, u);
    RowThere(g, v);
    RowThere(g, u);
    RowTurned(g, down, v, u);
  }

  lemma NextRow(g: Rows, down: bool, v: Id, u: Id)
    requires g.Valid() && v in g.pos && v in (if down then g.succs else g.preds) && u in (if down then g.succs else g.preds)[v]
    ensures u in g.pos && if down then g.L(v) + 1 == g.L(u) else g.L(u) + 1 == g.L(v)
  {
    hide Rows.L, Rows.P;
  }

  lemma RowTurned(g: Rows, down: bool, v: Id, u: Id)
    requires g.L(v) < |g.rows| && g.L(u) < |g.rows| && if down then g.L(v) + 1 == g.L(u) else g.L(u) + 1 == g.L(v)
    ensures g.Row(g.L(u), down) + 1 == g.Row(g.L(v), down)
  {
    hide Rows.L;
  }

  /** Every view of the layers is again a layering. */
  lemma ViewValid(g: Rows, down: bool, flip: bool)
    requires g.Valid()
    ensures g.View(down, flip).Valid()
  {
    hide *;
    var s := g.View(down, flip);
    ViewKeys(g, down, flip);
    forall i: nat, k: nat | s.In(i, k) ensures i < |s.layering| && k < |s.layering[i]| && s.layering[i][k] in s.pos && s.L(s.layering[i][k]) == i && s.P(s.layering[i][k]) == k {
      InSheet(s, i, k);
      Shown(g, down, flip, i, k);
    }
    forall v | v in s.pos ensures s.In(s.L(v), s.P(v)) && s.L(v) < |s.layering| && s.P(v) < |s.layering[s.L(v)]| && s.layering[s.L(v)][s.P(v)] == v {
      Seen(g, down, flip, v);
      InSheet(s, s.L(v), s.P(v));
    }
    forall v, u | v in s.pos && u in s.related[v] ensures u in s.pos && s.L(u) + 1 == s.L(v) {
      SeenNext(g, down, flip, v, u);
    }
    ViewMade(s);
  }

  lemma InSheet(s: Sheet, i: nat, k: nat)
    requires s.In(i, k)
    ensures i < |s.layering| && k < |s.layering[i]|
  {
  }

  lemma ViewMade(s: Sheet)
    requires s.layer.Keys == s.pos.Keys == s.related.Keys
    requires forall i: nat, k: nat :: s.In(i, k) ==>
      i < |s.layering| && k < |s.layering[i]| && s.layering[i][k] in s.pos && s.L(s.layering[i][k]) == i && s.P(s.layering[i][k]) == k
    requires forall v :: v in s.pos ==>
      s.In(s.L(v), s.P(v)) && s.L(v) < |s.layering| && s.P(v) < |s.layering[s.L(v)]| && s.layering[s.L(v)][s.P(v)] == v
    requires forall v, u :: v in s.pos && u in s.related[v] ==> u in s.pos && s.L(u) + 1 == s.L(v)
    ensures s.Valid()
  {
    hide Sheet.L, Sheet.P;
  }

  /** In the view, the left one of two neighbours is the right one if rows are reversed. */
  lemma NeighboursSeen(g: Rows, down: bool, flip: bool, d: Drawing, u: Id, v: Id)
    requires g.Valid() && d.s == g.View(down, flip) && g.Adjacent(u, v)
    ensures var l, r := if flip then v else u, if flip then u else v; r in d.s.pos && d.s.P(r) > 0 && d.Left(r) == l
  {
    hide *;
    var l, r := if flip then v else u, if flip then u else v;
    AdjacentIn(g, u, v);
    Seen(g, down, flip, l);
    Seen(g, down, flip, r);
    PlacesSeen(g, flip, u, v);
    LeftNow(d, l, r);
  }

  lemma AdjacentIn(g: Rows, u: Id, v: Id)
    requires g.Adjacent(u, v)
    ensures u in g.pos && v in g.pos && g.L(u) == g.L(v)
  {
  }

  lemma PlacesSeen(g: Rows, flip: bool, u: Id, v: Id)
    requires g.Valid() && g.Adjacent(u, v)
    ensures var l, r := if flip then v else u, if flip then u else v;
      g.Place(g.L(l), g.P(l), flip) + 1 == g.Place(g.L(r), g.P(r), flip)
  {
    hide Rows.L, Rows.P;
    assert g.In(g.L(u), g.P(u)) && g.In(g.L(v), g.P(v));
  }

  lemma LeftNow(d: Drawing, l: Id, r: Id)
    requires d.s.L(l) == d.s.L(r) < |d.s.layering| && d.s.P(l) + 1 == d.s.P(r) < |d.s.layering[d.s.L(r)]|
    requires d.s.layering[d.s.L(l)][d.s.P(l)] == l
    ensures d.Left(r) == l && d.s.P(r) > 0
  {
    hide Sheet.L, Sheet.P;
  }

  function Negated(xs: map<Id, real>): map<Id, real> {
    map v | v in xs :: -xs[v]
  }

  /** The nodes of a block stand above each other, and all neighbours in the rows, as they are given, keep their order and distance. */
  ghost predicate Separated(g: Rows, d: Drawing, xs: map<Id, real>) {
    && xs.Keys == g.pos.Keys
    && (forall v, w :: v in g.pos && w in g.pos && d.Root(v) == d.Root(w) ==> xs[v] == xs[w])
    && forall u, v :: g.Adjacent(u, v) ==> xs[v] >= xs[u] + d.sep(u) + d.sep(v)
  }

  lemma FlipBack(g: Rows, down: bool, flip: bool, d: Drawing, xs: map<Id, real>)
    requires g.Valid() && d.s == g.View(down, flip) && Spaced(d, xs)
    ensures Separated(g, d, if flip then Negated(xs) else xs)
  {
    hide Rows.View, Rows.Valid, Drawing.Left, Drawing.Root;
    var ys := if flip then Negated(xs) else xs;
    assert d.s.pos.Keys == g.pos.Keys by {
      ViewKeys(g, down, flip);
    }
    forall u, v | g.Adjacent(u, v) ensures ys[v] >= ys[u] + d.sep(u) + d.sep(v) {
      NeighboursSeen(g, down, flip, d, u, v);
    }
  }

  /** xs are the coordinates of the compacted drawing, turned back. */
  ghost predicate TurnedBack(d: Drawing, flip: bool, xs: map<Id, real>) {
    exists ys :: Compacted(d, ys) && xs == if flip then Negated(ys) else ys
  }

  lemma TurnedBackIs(d: Drawing, flip: bool, ys: map<Id, real>)
    requires Compacted(d, ys)
    ensures TurnedBack(d, flip, if flip then Negated(ys) else ys)
  {
    hide Compacted;
  }

  /** Each of the four layouts: the layers are turned, aligned and compacted, and the result is turned back. Whatever the direction, blocks
      are straight and neighbours keep the order and the distances of their rows. */
  method Candidate(g: Rows, sep: Id -> real, down: bool, flip: bool)
    returns (xs: map<Id, real>, d: Drawing, ghost up: map<Id, Id>)
    requires g.Valid()
    ensures d.s == g.View(down, flip) && d.sep == sep && Aligned(d.s, up, d.root, d.align)
    ensures Separated(g, d, xs) && TurnedBack(d, flip, xs)
  {
    hide *;
    ViewValid(g, down, flip);
    var s := g.View(down, flip);
    var pos, root, align;
    pos, root, align, up := VerticalAlignment(s);
    d := Drawing(s, root, align, sep);
    AlignedChained(s, up, root, align);
    ghost var rel, sink, at, maybeShift, shift;
    xs, rel, sink, at, maybeShift, shift := HorizontalCompaction(d, up);
    FlipBack(g, down, flip, d, xs);
    CompactedIs(d, rel, sink, at, maybeShift, shift, xs);
    TurnedBackIs(d, flip, xs);
    if flip {
      xs := Negated(xs);
    }
  }

  lemma AlignedChained(s: Sheet, up: map<Id, Id>, root: map<Id, Id>, align: map<Id, Id>)
    requires s.Valid() && Aligned(s, up, root, align)
    ensures Chained(s, up, root, align)
  {
  }
}
