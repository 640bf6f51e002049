/** The recursion that places the blocks of Brandes and Koepf's compaction from left to right; it is well founded because blocks
    never cross. */
module Placements {
  import opened Base
  import opened Digraphs
  import opened Alignments
  import opened Blocks

  // ---------- placing blocks ----------

  /** What compaction works on: the sheet, its blocks, and the room each node needs on either side. */
  datatype Drawing = Drawing(s: Sheet, root: map<Id, Id>, align: map<Id, Id>, sep: Id -> real) {
    /** The left neighbour in the layer. */
    function Left(w: Id): Id {
      if s.L(w) < |s.layering| && 0 < s.P(w) <= |s.layering[s.L(w)]| then s.layering[s.L(w)][s.P(w) - 1] else w
    }

    function Root(w: Id): Id {
      if w in root then root[w] else w
    }

    ghost predicate Valid(up: map<Id, Id>, rho: map<Id, real>) {
      Chained(s, up, root, align) && Columned(s, root, rho)
    }
  }

  lemma LeftPlaced(d: Drawing, w: Id)
    requires d.s.Valid() && w in d.s.pos && d.s.P(w) > 0
    ensures d.Left(w) in d.s.pos && d.s.L(d.Left(w)) == d.s.L(w) && d.s.P(d.Left(w)) == d.s.P(w) - 1
  {
    assert d.s.In(d.s.L(w), d.s.P(w));
    assert d.s.In(d.s.L(w), d.s.P(w) - 1);
  }

  /** w is the topmost node of its block that has a left neighbour. */
  ghost predicate First(d: Drawing, w: Id) {
    w in d.s.pos && d.s.P(w) > 0 &&
    forall y :: y in d.s.pos && d.Root(y) == d.Root(w) && d.s.P(y) > 0 ==> d.s.L(w) <= d.s.L(y)
  }

  /** Some node of the block r above layer lim has a left neighbour. */
  ghost predicate HasLeft(d: Drawing, r: Id, lim: nat) {
    exists y :: y in d.s.pos && d.Root(y) == r && d.s.P(y) > 0 && d.s.L(y) < lim
  }

  /** Within one class, the block r leaves room to the left of its node w; and r takes its class
      from the left neighbour of its topmost such node. */
  ghost predicate Apart(d: Drawing, xs: map<Id, real>, sink: map<Id, Id>, r: Id, w: Id) {
    var u := d.Root(d.Left(w));
    && u in xs && u in sink && r in xs && r in sink
    && (sink[r] == sink[u] ==> xs[r] >= xs[u] + d.sep(d.Left(w)) + d.sep(w))
    && (First(d, w) ==> sink[r] == sink[u])
  }

  /** The class of r is headed by a block that is done; r heads it itself if nothing is to its left. */
  ghost predicate Sunk(d: Drawing, sink: map<Id, Id>, done: set<Id>, r: Id, lim: nat) {
    r in sink && sink[r] in done && sink[r] in sink && sink[sink[r]] == sink[r] && (sink[r] != r ==> HasLeft(d, r, lim))
  }

  /** The blocks of done have their place, to the right of their neighbours' blocks. */
  ghost predicate Settled(d: Drawing, xs: map<Id, real>, sink: map<Id, Id>, done: set<Id>) {
    && done <= xs.Keys <= d.s.pos.Keys == sink.Keys
    && (forall r :: r in done ==> d.Root(r) == r && Sunk(d, sink, done, r, |d.s.layering|))
    && (forall r :: r in d.s.pos && r !in xs ==> sink[r] == r)
    && (forall w :: w in d.s.pos && d.Root(w) in done && d.s.P(w) > 0 ==>
          d.Root(d.Left(w)) in done && Apart(d, xs, sink, d.Root(w), w))
  }

  /** The block v is being placed, and its nodes above layer lim have been looked at. */
  ghost predicate Working(d: Drawing, xs: map<Id, real>, sink: map<Id, Id>, done: set<Id>, v: Id, lim: nat) {
    && Settled(d, xs, sink, done) && v in xs && v !in done && d.Root(v) == v && lim <= |d.s.layering|
    && (sink[v] != v ==> Sunk(d, sink, done, v, lim))
    && (forall w :: w in d.s.pos && d.Root(w) == v && d.s.L(w) < lim && d.s.P(w) > 0 ==>
          sink[v] != v && d.Root(d.Left(w)) in done && Apart(d, xs, sink, v, w))
  }

  /** What has been placed or is being placed is left alone. */
  ghost predicate Kept(xs: map<Id, real>, sink: map<Id, Id>, done: set<Id>, xs': map<Id, real>, sink': map<Id, Id>, done': set<Id>) {
    && done <= done' && xs.Keys - done == xs'.Keys - done' && sink.Keys == sink'.Keys
    && (forall x :: x in xs ==> x in xs' && xs'[x] == xs[x])
    && (forall x :: x in xs && x in sink ==> sink'[x] == sink[x])
  }

  /** The blocks being placed are all to the right of v. */
  ghost predicate Waiting(rho: map<Id, real>, xs: map<Id, real>, done: set<Id>, v: Id) {
    v in rho && forall x :: x in xs && x !in done ==> x in rho && rho[x] > rho[v]
  }

  ghost function Lefter(rho: map<Id, real>, v: Id): set<Id> {
    set x | x in rho && v in rho && rho[x] < rho[v]
  }

  /** The recursion goes to the left. */
  lemma LeftOf(d: Drawing, up: map<Id, Id>, rho: map<Id, real>, w: Id, v: Id, u: Id)
    requires d.Valid(up, rho) && w in d.s.pos && d.s.P(w) > 0 && d.Root(w) == v && u == d.Root(d.Left(w))
    ensures u in d.s.pos && d.Root(u) == u && u in d.root && d.Left(w) in d.root
    ensures u in rho && v in rho && rho[u] < rho[v] && Lefter(rho, u) < Lefter(rho, v)
  {
    hide *;
    ValidParts(d, up, rho);
    LeftPlaced(d, w);
    ColumnOf(d, rho, w);
    ColumnOf(d, rho, d.Left(w));
    RootAbove(d.s, up, d.root, d.Left(w));
    RootOfRoot(d, d.Left(w));
    Grows(d, rho, d.Left(w), w);
    LefterLess(rho, u, v);
  }

  lemma ValidParts(d: Drawing, up: map<Id, Id>, rho: map<Id, real>)
    requires d.Valid(up, rho)
    ensures Chained(d.s, up, d.root, d.align) && Columned(d.s, d.root, rho)
    ensures d.s.Valid() && d.s.Linked(up) && d.s.Tops(up, d.root) && d.root.Keys == d.align.Keys == d.s.pos.Keys == rho.Keys
  {
    hide Sheet.Valid, Sheet.Linked;
  }

  lemma ColumnOf(d: Drawing, rho: map<Id, real>, w: Id)
    requires Columned(d.s, d.root, rho) && w in d.s.pos
    ensures w in rho && d.Root(w) in d.s.pos && d.Root(w) in rho && rho[d.Root(w)] == rho[w] && w in d.root
  {
    hide Sheet.L, Sheet.P;
    assert w in d.s.pos.Keys && w in d.root.Keys;
    assert d.Root(w) == d.root[w];
  }

  lemma RootOfRoot(d: Drawing, x: Id)
    requires x in d.root && d.root[x] in d.root && d.root[d.root[x]] == d.root[x]
    ensures d.Root(x) == d.root[x] && d.Root(d.Root(x)) == d.Root(x)
  {
  }

  lemma Grows(d: Drawing, rho: map<Id, real>, x: Id, w: Id)
    requires Columned(d.s, d.root, rho) && x in d.s.pos && w in d.s.pos && d.s.L(x) == d.s.L(w) && d.s.P(x) < d.s.P(w)
    ensures x in rho && w in rho && rho[x] < rho[w]
  {
  }

  lemma LefterLess(rho: map<Id, real>, u: Id, v: Id)
    requires u in rho && v in rho && rho[u] < rho[v]
    ensures Lefter(rho, u) < Lefter(rho, v)
  {
    assert u in Lefter(rho, v) && u !in Lefter(rho, u);
  }

  lemma WaitsOn(rho: map<Id, real>, xs: map<Id, real>, sink: map<Id, Id>, done: set<Id>,
                xs': map<Id, real>, sink': map<Id, Id>, done': set<Id>, v: Id, u: Id)
    requires Waiting(rho, xs, done, v) && Grown(xs, sink, done, xs', sink', done', v) && u in rho && rho[u] < rho[v]
    ensures Waiting(rho, xs', done', u)
  {
    forall x | x in xs' && x !in done' ensures x == v || (x in xs && x !in done) {
      assert x in xs'.Keys - done';
    }
  }

  /** As Kept, with v now being placed. */
  ghost predicate Grown(xs: map<Id, real>, sink: map<Id, Id>, done: set<Id>, xs': map<Id, real>, sink': map<Id, Id>, done': set<Id>, v: Id) {
    && done <= done' && v !in done' && (xs.Keys - done) + {v} == xs'.Keys - done' && sink.Keys == sink'.Keys
    && (forall x :: x in xs ==> x in xs' && xs'[x] == xs[x])
    && (forall x :: x in xs && x in sink ==> sink'[x] == sink[x])
  }

  /** Nothing that has been settled depends on where v is put. */
  lemma SettledAdjust(d: Drawing, xs: map<Id, real>, sink: map<Id, Id>, done: set<Id>, v: Id, x: real, t: Id)
    requires Settled(d, xs, sink, done) && v !in done && v in d.s.pos
    ensures Settled(d, xs[v := x], sink[v := t], done)
  {
    hide *;
    var xs', sink' := xs[v := x], sink[v := t];
    AdjustedKeys(d, xs, sink, done, v, x, t);
    forall r | r in done ensures d.Root(r) == r && Sunk(d, sink', done, r, |d.s.layering|) {
      SinkSettled(d, xs, sink, done, r);
      SunkAdjust(d, sink, done, r, |d.s.layering|, v, t);
    }
    forall w | w in d.s.pos && d.Root(w) in done && d.s.P(w) > 0
      ensures d.Root(d.Left(w)) in done && Apart(d, xs', sink', d.Root(w), w)
    {
      SettledNext(d, xs, sink, done, w);
      SettledIn(d, xs, sink, done, d.Root(w));
      SettledIn(d, xs, sink, done, d.Root(d.Left(w)));
      ApartKept(d, xs, sink, xs', sink', d.Root(w), w);
    }
    SettledMade(d, xs', sink', done);
  }

  lemma SettledMade(d: Drawing, xs: map<Id, real>, sink: map<Id, Id>, done: set<Id>)
    requires done <= xs.Keys <= d.s.pos.Keys == sink.Keys
    requires forall r :: r in done ==> d.Root(r) == r && Sunk(d, sink, done, r, |d.s.layering|)
    requires forall r :: r in d.s.pos && r !in xs ==> sink[r] == r
    requires forall w :: w in d.s.pos && d.Root(w) in done && d.s.P(w) > 0 ==>
      d.Root(d.Left(w)) in done && Apart(d, xs, sink, d.Root(w), w)
    ensures Settled(d, xs, sink, done)
  {
    hide Sheet.L, Sheet.P, Drawing.Left, Drawing.Root, Apart, Sunk;
  }

  lemma AdjustedKeys(d: Drawing, xs: map<Id, real>, sink: map<Id, Id>, done: set<Id>, v: Id, x: real, t: Id)
    requires Settled(d, xs, sink, done) && v in d.s.pos
    ensures done <= xs[v := x].Keys <= d.s.pos.Keys == sink[v := t].Keys
    ensures forall r :: r in d.s.pos && r !in xs[v := x] ==> sink[v := t][r] == r
    ensures forall r :: r in done ==> d.Root(r) == r
  {
    hide Sheet.L, Sheet.P, Drawing.Left, Drawing.Root, Apart, Sunk;
  }

  lemma SunkAdjust(d: Drawing, sink: map<Id, Id>, done: set<Id>, r: Id, lim: nat, v: Id, t: Id)
    requires Sunk(d, sink, done, r, lim) && r in done && v !in done
    ensures Sunk(d, sink[v := t], done, r, lim)
  {
    hide HasLeft;
  }

  lemma SettledNext(d: Drawing, xs: map<Id, real>, sink: map<Id, Id>, done: set<Id>, w: Id)
    requires Settled(d, xs, sink, done) && w in d.s.pos && d.Root(w) in done && d.s.P(w) > 0
    ensures d.Root(d.Left(w)) in done && Apart(d, xs, sink, d.Root(w), w)
  {
    hide Apart, Sunk, Drawing.Root, Drawing.Left, Sheet.P, Sheet.L;
  }

  lemma ApartKept(d: Drawing, xs: map<Id, real>, sink: map<Id, Id>, xs': map<Id, real>, sink': map<Id, Id>, r: Id, w: Id)
    requires Apart(d, xs, sink, r, w) && r in xs' && r in sink' && xs'[r] >= xs[r] && sink'[r] == sink[r]
    requires var u := d.Root(d.Left(w)); u in xs' && u in sink' && xs'[u] == xs[u] && sink'[u] == sink[u]
    ensures Apart(d, xs', sink', r, w)
  {
    hide Sheet.L, Sheet.P, Drawing.Left, Drawing.Root;
  }

  lemma WorkingStarts(d: Drawing, up: map<Id, Id>, rho: map<Id, real>, xs: map<Id, real>, sink: map<Id, Id>, done: set<Id>, v: Id)
    requires d.Valid(up, rho) && Settled(d, xs, sink, done) && v in d.s.pos && d.Root(v) == v && v !in xs
    ensures Working(d, xs[v := 0.0], sink, done, v, d.s.L(v)) && Grown(xs, sink, done, xs[v := 0.0], sink, done, v)
  {
    hide *;
    ValidParts(d, up, rho);
    LayerBound(d.s, v);
    NothingAbove(d, up, rho, v);
    Unsettled(d, xs, sink, done, v);
    SettledAdjust(d, xs, sink, done, v, 0.0, sink[v]);
    assert sink[v := sink[v]] == sink;
    WorkingMade(d, xs[v := 0.0], sink, done, v, d.s.L(v));
    GrownStarts(xs, sink, done, v);
  }

  lemma GrownStarts(xs: map<Id, real>, sink: map<Id, Id>, done: set<Id>, v: Id)
    requires v !in xs && v !in done
    ensures Grown(xs, sink, done, xs[v := 0.0], sink, done, v)
  {
  }

  lemma Unsettled(d: Drawing, xs: map<Id, real>, sink: map<Id, Id>, done: set<Id>, v: Id)
    requires Settled(d, xs, sink, done) && v in d.s.pos && v !in xs
    ensures v !in done && v in sink && sink[v] == v && done <= xs.Keys && sink.Keys == d.s.pos.Keys
  {
    hide Apart, Drawing.Root, Drawing.Left;
  }

  lemma NothingAbove(d: Drawing, up: map<Id, Id>, rho: map<Id, real>, v: Id)
    requires d.Valid(up, rho)
    ensures forall w :: w in d.s.pos && d.Root(w) == v ==> d.s.L(w) >= d.s.L(v)
  {
    hide Drawing.Valid;
    ValidParts(d, up, rho);
    forall w | w in d.s.pos && d.Root(w) == v ensures d.s.L(w) >= d.s.L(v) {
      RootAbove(d.s, up, d.root, w);
    }
  }

  lemma GrownFurther(xs: map<Id, real>, sink: map<Id, Id>, done: set<Id>, xs1: map<Id, real>, sink1: map<Id, Id>, done1: set<Id>,
                     xs2: map<Id, real>, sink2: map<Id, Id>, done2: set<Id>, v: Id)
    requires done <= xs.Keys && Grown(xs, sink, done, xs1, sink1, done1, v) && Kept(xs1, sink1, done1, xs2, sink2, done2)
    requires v in xs1 && v !in done2
    ensures Grown(xs, sink, done, xs2, sink2, done2, v)
  {
  }

  lemma GrownAdjust(xs: map<Id, real>, sink: map<Id, Id>, done: set<Id>, xs1: map<Id, real>, sink1: map<Id, Id>, done1: set<Id>, v: Id,
                    t: Id, x: real)
    requires Grown(xs, sink, done, xs1, sink1, done1, v) && v !in xs && v in xs1 && v in sink1
    ensures Grown(xs, sink, done, xs1[v := x], sink1[v := t], done1, v)
  {
  }

  lemma GrownEnds(xs: map<Id, real>, sink: map<Id, Id>, done: set<Id>, xs1: map<Id, real>, sink1: map<Id, Id>, done1: set<Id>, v: Id)
    requires Grown(xs, sink, done, xs1, sink1, done1, v) && v !in xs && done <= xs.Keys
    ensures Kept(xs, sink, done, xs1, sink1, done1 + {v})
  {
  }

  /** Placing a block to the left keeps what has been done for v. */
  lemma WorkingKept(d: Drawing, xs: map<Id, real>, sink: map<Id, Id>, done: set<Id>,
                    xs': map<Id, real>, sink': map<Id, Id>, done': set<Id>, v: Id, lim: nat)
    requires Working(d, xs, sink, done, v, lim) && Kept(xs, sink, done, xs', sink', done') && Settled(d, xs', sink', done')
    ensures Working(d, xs', sink', done', v, lim)
  {
    hide *;
    WorkingSettled(d, xs, sink, done, v, lim);
    KeptAt(xs, sink, done, xs', sink', done', v);
    KeptOut(xs, sink, done, xs', sink', done', v);
    if sink[v] != v {
      SunkParts(d, sink, done, v, lim);
      SettledIn(d, xs, sink, done, sink[v]);
      KeptAt(xs, sink, done, xs', sink', done', sink[v]);
      SunkMade(d, sink', done', v, lim);
    }
    forall y | y in d.s.pos && d.Root(y) == v && d.s.L(y) < lim && d.s.P(y) > 0
      ensures sink'[v] != v && d.Root(d.Left(y)) in done' && Apart(d, xs', sink', v, y)
    {
      WorkingOn(d, xs, sink, done, v, lim, y);
      SettledIn(d, xs, sink, done, d.Root(d.Left(y)));
      KeptAt(xs, sink, done, xs', sink', done', d.Root(d.Left(y)));
      ApartKept(d, xs, sink, xs', sink', v, y);
    }
    WorkingMade(d, xs', sink', done', v, lim);
  }

  lemma KeptOut(xs: map<Id, real>, sink: map<Id, Id>, done: set<Id>, xs': map<Id, real>, sink': map<Id, Id>, done': set<Id>, v: Id)
    requires Kept(xs, sink, done, xs', sink', done') && v in xs && v !in done
    ensures v !in done' && done <= done'
  {
    assert v in xs.Keys - done;
  }

  lemma SunkMade(d: Drawing, sink: map<Id, Id>, done: set<Id>, r: Id, lim: nat)
    requires r in sink && sink[r] in done && sink[r] in sink && sink[sink[r]] == sink[r] && (sink[r] != r ==> HasLeft(d, r, lim))
    ensures Sunk(d, sink, done, r, lim)
  {
    hide HasLeft;
  }

  /** The step for a node w of the block that has a left neighbour. */
  lemma WorkingStep(d: Drawing, up: map<Id, Id>, xs: map<Id, real>, sink: map<Id, Id>, done: set<Id>, v: Id, w: Id, u: Id,
                    t: Id, x: real)
    requires Chained(d.s, up, d.root, d.align) && Working(d, xs, sink, done, v, d.s.L(w)) && w in d.s.pos && d.Root(w) == v
    requires d.s.P(w) > 0 && u == d.Root(d.Left(w)) && u in done && v in d.s.pos
    requires u in sink && u in xs && v in sink && v in xs
    requires t == (if sink[v] == v then sink[u] else sink[v])
    requires x >= xs[v] && (t == sink[u] ==> x >= xs[u] + d.sep(d.Left(w)) + d.sep(w))
    ensures Working(d, xs[v := x], sink[v := t], done, v, d.s.L(w) + 1)
  {
    hide *;
    OnlyOne(d, up, v, w);
    BlocksParts(d.s, up, d.root, d.align);
    WorkingSettled(d, xs, sink, done, v, d.s.L(w));
    SettledAdjust(d, xs, sink, done, v, x, t);
    SinkSettled(d, xs, sink, done, u);
    NewSink(d, sink, done, v, w, u, t);
    LayerBound(d.s, w);
    forall y | y in d.s.pos && d.Root(y) == v && d.s.L(y) < d.s.L(w) + 1 && d.s.P(y) > 0
      ensures t != v && d.Root(d.Left(y)) in done && Apart(d, xs[v := x], sink[v := t], v, y)
    {
      if y == w {
        ApartNow(d, xs, sink, done, v, w, u, t, x);
      } else {
        WorkingOn(d, xs, sink, done, v, d.s.L(w), y);
        SettledIn(d, xs, sink, done, d.Root(d.Left(y)));
        ApartKept(d, xs, sink, xs[v := x], sink[v := t], v, y);
      }
    }
    WorkingMade(d, xs[v := x], sink[v := t], done, v, d.s.L(w) + 1);
  }

  lemma WorkingSettled(d: Drawing, xs: map<Id, real>, sink: map<Id, Id>, done: set<Id>, v: Id, lim: nat)
    requires Working(d, xs, sink, done, v, lim)
    ensures Settled(d, xs, sink, done) && v in xs && v !in done && d.Root(v) == v && v in sink && lim <= |d.s.layering|
    ensures sink[v] != v ==> Sunk(d, sink, done, v, lim)
  {
    hide Apart, Sunk, Drawing.Root, Drawing.Left, Sheet.P, Sheet.L;
  }

  lemma WorkingOn(d: Drawing, xs: map<Id, real>, sink: map<Id, Id>, done: set<Id>, v: Id, lim: nat, y: Id)
    requires Working(d, xs, sink, done, v, lim) && y in d.s.pos && d.Root(y) == v && d.s.L(y) < lim && d.s.P(y) > 0
    ensures v in sink && sink[v] != v && d.Root(d.Left(y)) in done && Apart(d, xs, sink, v, y)
  {
    hide Apart, Drawing.Root, Drawing.Left, Sheet.P, Sheet.L;
  }

  lemma WorkingMade(d: Drawing, xs: map<Id, real>, sink: map<Id, Id>, done: set<Id>, v: Id, lim: nat)
    requires Settled(d, xs, sink, done) && v in xs && v !in done && d.Root(v) == v && v in sink && lim <= |d.s.layering|
    requires sink[v] != v ==> Sunk(d, sink, done, v, lim)
    requires forall y :: y in d.s.pos && d.Root(y) == v && d.s.L(y) < lim && d.s.P(y) > 0 ==>
        sink[v] != v && d.Root(d.Left(y)) in done && Apart(d, xs, sink, v, y)
    ensures Working(d, xs, sink, done, v, lim)
  {
    hide Apart, Sunk, Drawing.Root, Drawing.Left, Sheet.P, Sheet.L, Settled;
  }

  lemma SettledIn(d: Drawing, xs: map<Id, real>, sink: map<Id, Id>, done: set<Id>, r: Id)
    requires Settled(d, xs, sink, done) && r in done
    ensures r in xs && r in sink && r in d.s.pos
  {
    hide Apart, Drawing.Root, Drawing.Left, Sheet.P, Sheet.L;
  }

  lemma SinkSettled(d: Drawing, xs: map<Id, real>, sink: map<Id, Id>, done: set<Id>, r: Id)
    requires Settled(d, xs, sink, done) && r in done
    ensures Sunk(d, sink, done, r, |d.s.layering|)
  {
    hide Apart, Drawing.Root, Drawing.Left, Sheet.P, Sheet.L, Sunk;
  }

  lemma NewSink(d: Drawing, sink: map<Id, Id>, done: set<Id>, v: Id, w: Id, u: Id, t: Id)
    requires v !in done && u in done && Sunk(d, sink, done, u, |d.s.layering|) && v in sink
    requires sink[v] != v ==> Sunk(d, sink, done, v, d.s.L(w))
    requires w in d.s.pos && d.Root(w) == v && d.s.P(w) > 0 && t == (if sink[v] == v then sink[u] else sink[v])
    ensures t != v && Sunk(d, sink[v := t], done, v, d.s.L(w) + 1)
  {
    assert HasLeft(d, v, d.s.L(w) + 1);
  }

  lemma SunkLater(d: Drawing, sink: map<Id, Id>, done: set<Id>, v: Id, lim: nat, lim': nat)
    requires Sunk(d, sink, done, v, lim) && lim <= lim'
    ensures Sunk(d, sink, done, v, lim')
  {
    hide Drawing.Root, Sheet.L, Sheet.P;
  }

  lemma ApartNow(d: Drawing, xs: map<Id, real>, sink: map<Id, Id>, done: set<Id>, v: Id, w: Id, u: Id, t: Id, x: real)
    requires u == d.Root(d.Left(w)) && u != v && u in sink && u in xs && v in sink && v in xs && d.Root(w) == v
    requires t == (if sink[v] == v then sink[u] else sink[v]) && (sink[v] != v ==> Sunk(d, sink, done, v, d.s.L(w)))
    requires t == sink[u] ==> x >= xs[u] + d.sep(d.Left(w)) + d.sep(w)
    ensures Apart(d, xs[v := x], sink[v := t], v, w)
  {
    hide Drawing.Root, Drawing.Left, Sheet.L, Sheet.P;
  }

  lemma OnlyOne(d: Drawing, up: map<Id, Id>, v: Id, w: Id)
    requires Chained(d.s, up, d.root, d.align) && w in d.s.pos && d.Root(w) == v
    ensures forall x :: x in d.s.pos && d.Root(x) == v && d.s.L(x) < d.s.L(w) + 1 ==> x == w || d.s.L(x) < d.s.L(w)
  {
    hide Chained;
    forall x | x in d.s.pos && d.Root(x) == v && d.s.L(x) == d.s.L(w) ensures x == w {
      BlocksParts(d.s, up, d.root, d.align);
      OnePerLayer(d.s, up, d.root, d.align, x, w);
    }
  }

  lemma WorkingFirst(d: Drawing, up: map<Id, Id>, xs: map<Id, real>, sink: map<Id, Id>, done: set<Id>, v: Id, w: Id)
    requires Chained(d.s, up, d.root, d.align) && Working(d, xs, sink, done, v, d.s.L(w)) && w in d.s.pos && d.Root(w) == v
    requires d.s.P(w) == 0
    ensures Working(d, xs, sink, done, v, d.s.L(w) + 1)
  {
    hide *;
    OnlyOne(d, up, v, w);
    BlocksParts(d.s, up, d.root, d.align);
    LayerBound(d.s, w);
    WorkingSettled(d, xs, sink, done, v, d.s.L(w));
    if sink[v] != v {
      SunkLater(d, sink, done, v, d.s.L(w), d.s.L(w) + 1);
    }
    forall y | y in d.s.pos && d.Root(y) == v && d.s.L(y) < d.s.L(w) + 1 && d.s.P(y) > 0
      ensures sink[v] != v && d.Root(d.Left(y)) in done && Apart(d, xs, sink, v, y)
    {
      WorkingOn(d, xs, sink, done, v, d.s.L(w), y);
    }
    WorkingMade(d, xs, sink, done, v, d.s.L(w) + 1);
  }

  /** The next node of the block, or the end of it. */
  lemma WorkingTurn(d: Drawing, up: map<Id, Id>, xs: map<Id, real>, sink: map<Id, Id>, done: set<Id>, v: Id, w: Id)
    requires Chained(d.s, up, d.root, d.align) && Working(d, xs, sink, done, v, d.s.L(w) + 1) && w in d.s.pos && d.Root(w) == v
    ensures w in d.align && d.align[w] in d.s.pos && d.Root(d.align[w]) == v
    ensures d.align[w] != v ==> Working(d, xs, sink, done, v, d.s.L(d.align[w]))
    ensures d.align[w] != v ==> d.s.L(w) < d.s.L(d.align[w]) < |d.s.layering|
    ensures d.align[w] == v ==> Working(d, xs, sink, done, v, |d.s.layering|)
  {
    hide *;
    BlocksParts(d.s, up, d.root, d.align);
    RingStep(d.s, up, d.root, d.align, w);
    LayerBound(d.s, d.align[w]);
    RootIs(d, w);
    RootIs(d, d.align[w]);
    WorkingSettled(d, xs, sink, done, v, d.s.L(w) + 1);
    var lim := if d.align[w] == v then |d.s.layering| else d.s.L(d.align[w]);
    if sink[v] != v {
      SunkLater(d, sink, done, v, d.s.L(w) + 1, lim);
    }
    forall y | y in d.s.pos && d.Root(y) == v && d.s.L(y) < lim && d.s.P(y) > 0
      ensures sink[v] != v && d.Root(d.Left(y)) in done && Apart(d, xs, sink, v, y)
    {
      RootIs(d, y);
      WorkingOn(d, xs, sink, done, v, d.s.L(w) + 1, y);
    }
    WorkingMade(d, xs, sink, done, v, lim);
  }

  lemma RootIs(d: Drawing, w: Id)
    requires w in d.root
    ensures d.Root(w) == d.root[w]
  {
  }

  lemma WorkingEnds(d: Drawing, xs: map<Id, real>, sink: map<Id, Id>, done: set<Id>, v: Id)
    requires d.s.Valid() && Working(d, xs, sink, done, v, |d.s.layering|)
    ensures Settled(d, xs, sink, done + {v})
  {
    hide *;
    WorkingSettled(d, xs, sink, done, v, |d.s.layering|);
    forall w | w in d.s.pos && d.Root(w) == v && d.s.P(w) > 0 ensures d.Root(d.Left(w)) in done && Apart(d, xs, sink, v, w) {
      LayerBound(d.s, w);
      WorkingOn(d, xs, sink, done, v, |d.s.layering|, w);
    }
    SettledMore(d, xs, sink, done, v);
  }

  lemma SettledMore(d: Drawing, xs: map<Id, real>, sink: map<Id, Id>, done: set<Id>, v: Id)
    requires Settled(d, xs, sink, done) && v in xs && v !in done && d.Root(v) == v && v in sink
    requires sink[v] != v ==> Sunk(d, sink, done, v, |d.s.layering|)
    requires forall w :: w in d.s.pos && d.Root(w) == v && d.s.P(w) > 0 ==> d.Root(d.Left(w)) in done && Apart(d, xs, sink, v, w)
    ensures Settled(d, xs, sink, done + {v})
  {
    hide Sheet.L, Sheet.P, Drawing.Left, Drawing.Root, Apart;
  }

  // ---------- what is noted between classes ----------

  /** The block to the left of w. */
  function Beside(d: Drawing, w: Id): Id {
    d.Root(d.Left(w))
  }

  /** Where w may stand at the earliest, for the block to its left. */
  function Edge(d: Drawing, xs: map<Id, real>, w: Id): real {
    (if Beside(d, w) in xs then xs[Beside(d, w)] else 0.0) + d.sep(d.Left(w)) + d.sep(w)
  }

  /** y is a node of block r above layer lim whose left neighbour belongs to the class of r. */
  ghost predicate Pushes(d: Drawing, sink: map<Id, Id>, r: Id, lim: nat, y: Id) {
    && y in d.s.pos && d.Root(y) == r && d.s.P(y) > 0 && d.s.L(y) < lim
    && r in sink && Beside(d, y) in sink && sink[r] == sink[Beside(d, y)]
  }

  /** x is as far left as the nodes of block r above layer lim allow. */
  ghost predicate Leftmost(d: Drawing, xs: map<Id, real>, sink: map<Id, Id>, r: Id, lim: nat, x: real) {
    && x >= 0.0 && (forall y :: Pushes(d, sink, r, lim, y) ==> x >= Edge(d, xs, y))
    && (x == 0.0 || exists y :: Pushes(d, sink, r, lim, y) && x == Edge(d, xs, y))
  }

  /** The left neighbour of y belongs to another class. */
  ghost predicate Foreign(d: Drawing, sink: map<Id, Id>, y: Id) {
    d.Root(y) in sink && Beside(d, y) in sink && sink[d.Root(y)] != sink[Beside(d, y)]
  }

  /** The two classes. */
  ghost function Pair(d: Drawing, sink: map<Id, Id>, y: Id): (Id, Id)
    requires Foreign(d, sink, y)
  {
    (sink[Beside(d, y)], sink[d.Root(y)])
  }

  /** The room that was left over at y when its block had been moved to at[y]. */
  ghost function LeftOver(d: Drawing, xs: map<Id, real>, at: map<Id, real>, y: Id): real {
    (if y in at then at[y] else 0.0) - Edge(d, xs, y)
  }

  ghost predicate NoteFits(d: Drawing, xs: map<Id, real>, sink: map<Id, Id>, at: map<Id, real>, notes: map<(Id, Id), real>, y: Id) {
    Foreign(d, sink, y) ==> Pair(d, sink, y) in notes && notes[Pair(d, sink, y)] <= LeftOver(d, xs, at, y)
  }

  ghost predicate NoteFrom(d: Drawing, xs: map<Id, real>, sink: map<Id, Id>, at: map<Id, real>, p: (Id, Id), note: real) {
    exists y :: y in at && Foreign(d, sink, y) && Pair(d, sink, y) == p && note == LeftOver(d, xs, at, y)
  }

  /** For each pair of classes the least room is noted that was left over between their blocks. */
  ghost predicate NotesFit(d: Drawing, xs: map<Id, real>, sink: map<Id, Id>, at: map<Id, real>, notes: map<(Id, Id), real>) {
    && (forall y :: y in at ==> NoteFits(d, xs, sink, at, notes, y))
    && (forall p :: p in notes ==> NoteFrom(d, xs, sink, at, p, notes[p]))
  }

  /** y has been looked at when its block was at at[y], after all nodes of its block above. */
  ghost predicate LookedAt(d: Drawing, xs: map<Id, real>, sink: map<Id, Id>, done: set<Id>, at: map<Id, real>, y: Id) {
    && y in at && y in d.s.pos && d.s.P(y) > 0 && Beside(d, y) in done && Beside(d, y) in xs && Beside(d, y) in sink
    && d.Root(y) in xs && d.Root(y) in sink && Leftmost(d, xs, sink, d.Root(y), d.s.L(y), at[y])
    && forall z :: z in d.s.pos && d.Root(z) == d.Root(y) && d.s.L(z) < d.s.L(y) && d.s.P(z) > 0 ==> z in at
  }

  /** The blocks of done are as far left as they may be, and all that was left over is noted. */
  ghost predicate Tracked(d: Drawing, xs: map<Id, real>, sink: map<Id, Id>, done: set<Id>, at: map<Id, real>, notes: map<(Id, Id), real>) {
    && (forall y :: y in at ==> LookedAt(d, xs, sink, done, at, y)) && NotesFit(d, xs, sink, at, notes)
    && (forall y :: y in d.s.pos && d.Root(y) in done && d.s.P(y) > 0 ==> y in at)
    && forall r :: r in done ==> r in xs && Leftmost(d, xs, sink, r, |d.s.layering|, xs[r])
  }

  /** The nodes of v above layer lim have been looked at. */
  ghost predicate TrackedTo(d: Drawing, xs: map<Id, real>, sink: map<Id, Id>, at: map<Id, real>, v: Id, lim: nat) {
    && v in xs && v in sink && Leftmost(d, xs, sink, v, lim, xs[v])
    && forall y :: y in d.s.pos && d.Root(y) == v && d.s.P(y) > 0 ==> (y in at <==> d.s.L(y) < lim)
  }

  /** Only nodes of new blocks have been looked at. */
  ghost predicate AtGrows(d: Drawing, xs: map<Id, real>, at: map<Id, real>, at': map<Id, real>) {
    && (forall y :: y in at ==> y in at' && at'[y] == at[y])
    && (forall y :: y in at' && y !in at ==> d.Root(y) !in xs)
  }

  /** What is to the left of y is as it was. */
  ghost predicate SameBeside(d: Drawing, xs: map<Id, real>, sink: map<Id, Id>, xs': map<Id, real>, sink': map<Id, Id>, y: Id) {
    var u := Beside(d, y);
    u in xs && u in xs' && xs'[u] == xs[u] && u in sink && u in sink' && sink'[u] == sink[u]
  }

  lemma LeftmostKept(d: Drawing, xs: map<Id, real>, sink: map<Id, Id>, xs': map<Id, real>, sink': map<Id, Id>, r: Id, lim: nat, x: real)
    requires Leftmost(d, xs, sink, r, lim, x) && r in sink && r in sink'
    requires forall y :: y in d.s.pos && d.Root(y) == r && d.s.P(y) > 0 && d.s.L(y) < lim ==>
      SameBeside(d, xs, sink, xs', sink', y) && sink'[r] == sink[r]
    ensures Leftmost(d, xs', sink', r, lim, x)
  {
    hide Drawing.Root, Drawing.Left, Sheet.L, Sheet.P, Beside;
    forall y ensures Pushes(d, sink', r, lim, y) <==> Pushes(d, sink, r, lim, y) {
    }
    if x != 0.0 {
      var y :| Pushes(d, sink, r, lim, y) && x == Edge(d, xs, y);
      assert Pushes(d, sink', r, lim, y) && x == Edge(d, xs', y);
    }
  }

  /** Another limit with no relevant node in between. */
  lemma LeftmostTurn(d: Drawing, xs: map<Id, real>, sink: map<Id, Id>, r: Id, lim: nat, lim': nat, x: real)
    requires Leftmost(d, xs, sink, r, lim, x)
    requires forall y :: y in d.s.pos && d.Root(y) == r && d.s.P(y) > 0 ==> (d.s.L(y) < lim <==> d.s.L(y) < lim')
    ensures Leftmost(d, xs, sink, r, lim', x)
  {
    hide Drawing.Root, Drawing.Left, Sheet.L, Sheet.P, Beside, Edge;
    forall y ensures Pushes(d, sink, r, lim', y) <==> Pushes(d, sink, r, lim, y) {
    }
  }

  /** A block only moves to the right. */
  lemma LeftmostGrows(d: Drawing, xs: map<Id, real>, sink: map<Id, Id>, r: Id, lim: nat, lim': nat, x: real, x': real)
    requires Leftmost(d, xs, sink, r, lim, x) && Leftmost(d, xs, sink, r, lim', x') && lim <= lim'
    ensures x <= x'
  {
    hide Drawing.Root, Drawing.Left, Sheet.L, Sheet.P, Beside, Edge;
    if x != 0.0 {
      var y :| Pushes(d, sink, r, lim, y) && x == Edge(d, xs, y);
      assert Pushes(d, sink, r, lim', y);
    }
  }

  /** The node w of block v comes to it. */
  lemma LeftmostStep(d: Drawing, xs: map<Id, real>, sink: map<Id, Id>, v: Id, w: Id, x: real)
    requires Leftmost(d, xs, sink, v, d.s.L(w), x) && w in d.s.pos && d.Root(w) == v && d.s.P(w) > 0
    requires v in sink && Beside(d, w) in sink && Beside(d, w) in xs
    requires forall y :: y in d.s.pos && d.Root(y) == v && d.s.L(y) < d.s.L(w) + 1 ==> y == w || d.s.L(y) < d.s.L(w)
    ensures var x' := if sink[v] == sink[Beside(d, w)] && x < Edge(d, xs, w) then Edge(d, xs, w) else x;
      Leftmost(d, xs, sink, v, d.s.L(w) + 1, x')
  {
    hide Drawing.Root, Drawing.Left, Sheet.L, Sheet.P, Beside, Edge;
    var lim := d.s.L(w);
    forall y ensures Pushes(d, sink, v, lim + 1, y) <==> Pushes(d, sink, v, lim, y) || (y == w && sink[v] == sink[Beside(d, w)]) {
    }
  }

  lemma LookedAtKept(d: Drawing, xs: map<Id, real>, sink: map<Id, Id>, done: set<Id>, at: map<Id, real>,
                     xs': map<Id, real>, sink': map<Id, Id>, done': set<Id>, at': map<Id, real>, y: Id)
    requires LookedAt(d, xs, sink, done, at, y) && y in at' && at'[y] == at[y] && done <= done'
    requires d.Root(y) in xs' && d.Root(y) in sink' && sink'[d.Root(y)] == sink[d.Root(y)] && SameBeside(d, xs, sink, xs', sink', y)
    requires forall z :: z in at ==> z in at' && (d.Root(z) == d.Root(y) ==> SameBeside(d, xs, sink, xs', sink', z))
    ensures LookedAt(d, xs', sink', done', at', y)
  {
    hide Drawing.Root, Drawing.Left, Sheet.L, Sheet.P, Beside, Leftmost;
    LeftmostKept(d, xs, sink, xs', sink', d.Root(y), d.s.L(y), at[y]);
  }

  /** What has been noted of y does not change. */
  lemma LeftOverKept(d: Drawing, xs: map<Id, real>, sink: map<Id, Id>, at: map<Id, real>, xs': map<Id, real>, sink': map<Id, Id>, at': map<Id, real>, y: Id)
    requires SameBeside(d, xs, sink, xs', sink', y) && y in at && y in at' && at'[y] == at[y]
    requires d.Root(y) in sink && d.Root(y) in sink' && sink'[d.Root(y)] == sink[d.Root(y)]
    ensures Foreign(d, sink', y) == Foreign(d, sink, y) && LeftOver(d, xs', at', y) == LeftOver(d, xs, at, y)
    ensures Foreign(d, sink, y) ==> Pair(d, sink', y) == Pair(d, sink, y)
  {
    hide Drawing.Root, Drawing.Left, Beside;
  }

  lemma NoteFromKept(d: Drawing, xs: map<Id, real>, sink: map<Id, Id>, at: map<Id, real>, xs': map<Id, real>, sink': map<Id, Id>, at': map<Id, real>,
                     p: (Id, Id), note: real)
    requires NoteFrom(d, xs, sink, at, p, note)
    requires forall y :: y in at ==>
      SameBeside(d, xs, sink, xs', sink', y) && y in at' && at'[y] == at[y] && d.Root(y) in sink && d.Root(y) in sink' && sink'[d.Root(y)] == sink[d.Root(y)]
    ensures NoteFrom(d, xs', sink', at', p, note)
  {
    hide *;
    var y := NoteSource(d, xs, sink, at, p, note);
    LeftOverKept(d, xs, sink, at, xs', sink', at', y);
    NoteIs(d, xs', sink', at', p, note, y);
  }

  lemma NoteSource(d: Drawing, xs: map<Id, real>, sink: map<Id, Id>, at: map<Id, real>, p: (Id, Id), note: real) returns (y: Id)
    requires NoteFrom(d, xs, sink, at, p, note)
    ensures y in at && Foreign(d, sink, y) && Pair(d, sink, y) == p && note == LeftOver(d, xs, at, y)
  {
    hide Foreign, Pair, LeftOver;
    y :| y in at && Foreign(d, sink, y) && Pair(d, sink, y) == p && note == LeftOver(d, xs, at, y);
  }

  lemma NoteIs(d: Drawing, xs: map<Id, real>, sink: map<Id, Id>, at: map<Id, real>, p: (Id, Id), note: real, y: Id)
    requires y in at && Foreign(d, sink, y) && Pair(d, sink, y) == p && note == LeftOver(d, xs, at, y)
    ensures NoteFrom(d, xs, sink, at, p, note)
  {
    hide Foreign, Pair, LeftOver;
  }

  /** The block v, not done yet, is put at x and joins class t, which it may do only before any of its nodes has been looked at. */
  ghost predicate MayJoin(d: Drawing, sink: map<Id, Id>, at: map<Id, real>, v: Id, t: Id) {
    v in sink && (t == sink[v] || forall y :: y in at ==> d.Root(y) != v)
  }

  lemma StaysPut(d: Drawing, xs: map<Id, real>, sink: map<Id, Id>, done: set<Id>, at: map<Id, real>, v: Id, x: real, t: Id, y: Id)
    requires LookedAt(d, xs, sink, done, at, y) && v !in done && MayJoin(d, sink, at, v, t)
    ensures SameBeside(d, xs, sink, xs[v := x], sink[v := t], y)
    ensures d.Root(y) in sink && d.Root(y) in sink[v := t] && sink[v := t][d.Root(y)] == sink[d.Root(y)] && d.Root(y) in xs
  {
    hide Drawing.Root, Drawing.Left, Sheet.L, Sheet.P, Beside, Leftmost;
  }

  lemma TrackedAdjust(d: Drawing, xs: map<Id, real>, sink: map<Id, Id>, done: set<Id>, at: map<Id, real>, notes: map<(Id, Id), real>,
                      v: Id, x: real, t: Id)
    requires Tracked(d, xs, sink, done, at, notes) && v !in done && MayJoin(d, sink, at, v, t)
    requires Settled(d, xs, sink, done)
    ensures Tracked(d, xs[v := x], sink[v := t], done, at, notes)
  {
    hide *;
    var xs', sink' := xs[v := x], sink[v := t];
    forall y | y in at
      ensures LookedAt(d, xs, sink, done, at, y) && SameBeside(d, xs, sink, xs', sink', y)
      ensures d.Root(y) in sink && d.Root(y) in sink' && sink'[d.Root(y)] == sink[d.Root(y)] && d.Root(y) in xs && d.Root(y) in xs'
    {
      TrackedLooked(d, xs, sink, done, at, notes, y);
      StaysPut(d, xs, sink, done, at, v, x, t, y);
    }
    TrackedFrame(d, xs, sink, done, at, notes, xs', sink', done, at);
    forall r | r in done ensures r in xs' && Leftmost(d, xs', sink', r, |d.s.layering|, xs'[r]) {
      TrackedBlock(d, xs, sink, done, at, notes, r);
      SettledIn(d, xs, sink, done, r);
      LeftmostKept(d, xs, sink, xs', sink', r, |d.s.layering|, xs[r]);
    }
    TrackedParts(d, xs, sink, done, at, notes);
    NotesMade(d, xs', sink', at, notes);
    TrackedMade(d, xs', sink', done, at, notes);
  }

  lemma NotesMade(d: Drawing, xs: map<Id, real>, sink: map<Id, Id>, at: map<Id, real>, notes: map<(Id, Id), real>)
    requires forall y :: y in at ==> NoteFits(d, xs, sink, at, notes, y)
    requires forall p :: p in notes ==> NoteFrom(d, xs, sink, at, p, notes[p])
    ensures NotesFit(d, xs, sink, at, notes)
  {
    hide NoteFits, NoteFrom;
  }

  lemma TrackedLooked(d: Drawing, xs: map<Id, real>, sink: map<Id, Id>, done: set<Id>, at: map<Id, real>, notes: map<(Id, Id), real>, y: Id)
    requires Tracked(d, xs, sink, done, at, notes) && y in at
    ensures LookedAt(d, xs, sink, done, at, y) && NoteFits(d, xs, sink, at, notes, y)
  {
    hide Drawing.Root, Drawing.Left, Sheet.L, Sheet.P, Beside, Leftmost, LookedAt, NoteFits, NoteFrom;
  }

  lemma TrackedBlock(d: Drawing, xs: map<Id, real>, sink: map<Id, Id>, done: set<Id>, at: map<Id, real>, notes: map<(Id, Id), real>, r: Id)
    requires Tracked(d, xs, sink, done, at, notes) && r in done
    ensures r in xs && Leftmost(d, xs, sink, r, |d.s.layering|, xs[r])
    ensures forall y :: y in d.s.pos && d.Root(y) == r && d.s.P(y) > 0 ==> y in at
  {
    hide Drawing.Root, Drawing.Left, Sheet.L, Sheet.P, Beside, Leftmost, LookedAt, NotesFit;
  }

  lemma TrackedParts(d: Drawing, xs: map<Id, real>, sink: map<Id, Id>, done: set<Id>, at: map<Id, real>, notes: map<(Id, Id), real>)
    requires Tracked(d, xs, sink, done, at, notes)
    ensures NotesFit(d, xs, sink, at, notes) && forall y :: y in d.s.pos && d.Root(y) in done && d.s.P(y) > 0 ==> y in at
  {
    hide Drawing.Root, Drawing.Left, Sheet.L, Sheet.P, Beside, Leftmost, LookedAt, NotesFit;
  }

  lemma TrackedMade(d: Drawing, xs: map<Id, real>, sink: map<Id, Id>, done: set<Id>, at: map<Id, real>, notes: map<(Id, Id), real>)
    requires (forall y :: y in at ==> LookedAt(d, xs, sink, done, at, y)) && NotesFit(d, xs, sink, at, notes)
    requires forall y :: y in d.s.pos && d.Root(y) in done && d.s.P(y) > 0 ==> y in at
    requires forall r :: r in done ==> r in xs && Leftmost(d, xs, sink, r, |d.s.layering|, xs[r])
    ensures Tracked(d, xs, sink, done, at, notes)
  {
    hide Drawing.Root, Drawing.Left, Sheet.L, Sheet.P, Beside, Leftmost, LookedAt, NotesFit;
  }

  /** When nothing changes to the left of the nodes looked at, they and the notes are as they were. */
  lemma TrackedFrame(d: Drawing, xs: map<Id, real>, sink: map<Id, Id>, done: set<Id>, at: map<Id, real>, notes: map<(Id, Id), real>,
                     xs': map<Id, real>, sink': map<Id, Id>, done': set<Id>, at': map<Id, real>)
    requires Tracked(d, xs, sink, done, at, notes) && done <= done'
    requires forall y :: y in at ==> y in at' && at'[y] == at[y] && SameBeside(d, xs, sink, xs', sink', y)
    requires forall y :: y in at ==> d.Root(y) in sink && d.Root(y) in sink' && sink'[d.Root(y)] == sink[d.Root(y)] && d.Root(y) in xs'
    ensures forall y :: y in at ==> LookedAt(d, xs', sink', done', at', y) && NoteFits(d, xs', sink', at', notes, y)
    ensures forall p :: p in notes ==> NoteFrom(d, xs', sink', at', p, notes[p])
  {
    hide *;
    forall y | y in at ensures LookedAt(d, xs', sink', done', at', y) && NoteFits(d, xs', sink', at', notes, y) {
      TrackedLooked(d, xs, sink, done, at, notes, y);
      LookedAtKept(d, xs, sink, done, at, xs', sink', done', at', y);
      LeftOverKept(d, xs, sink, at, xs', sink', at', y);
      NoteFitsKept(d, xs, sink, at, notes, xs', sink', at', y);
    }
    forall p | p in notes ensures NoteFrom(d, xs', sink', at', p, notes[p]) {
      TrackedNote(d, xs, sink, done, at, notes, p);
      NoteFromKept(d, xs, sink, at, xs', sink', at', p, notes[p]);
    }
  }

  lemma TrackedNote(d: Drawing, xs: map<Id, real>, sink: map<Id, Id>, done: set<Id>, at: map<Id, real>, notes: map<(Id, Id), real>, p: (Id, Id))
    requires Tracked(d, xs, sink, done, at, notes) && p in notes
    ensures NoteFrom(d, xs, sink, at, p, notes[p])
  {
    hide Drawing.Root, Drawing.Left, Sheet.L, Sheet.P, Beside, Leftmost, LookedAt, NoteFits, NoteFrom;
  }

  lemma NoteFitsKept(d: Drawing, xs: map<Id, real>, sink: map<Id, Id>, at: map<Id, real>, notes: map<(Id, Id), real>,
                     xs': map<Id, real>, sink': map<Id, Id>, at': map<Id, real>, y: Id)
    requires NoteFits(d, xs, sink, at, notes, y) && Foreign(d, sink', y) == Foreign(d, sink, y) && LeftOver(d, xs', at', y) == LeftOver(d, xs, at, y)
    requires Foreign(d, sink, y) ==> Pair(d, sink', y) == Pair(d, sink, y)
    ensures NoteFits(d, xs', sink', at', notes, y)
  {
    hide Foreign, Pair, LeftOver;
  }

  /** What PassNode notes of w, when the left neighbour of w is of another class. */
  ghost predicate Renoted(d: Drawing, xs: map<Id, real>, sink: map<Id, Id>, at: map<Id, real>, notes: map<(Id, Id), real>,
                          notes': map<(Id, Id), real>, w: Id) {
    && (forall p :: p in notes ==> p in notes' && notes'[p] <= notes[p])
    && (Foreign(d, sink, w) ==> Pair(d, sink, w) in notes' && notes'[Pair(d, sink, w)] <= LeftOver(d, xs, at, w))
    && (forall p :: p in notes' ==> (p in notes && notes'[p] == notes[p]) || NotedOf(d, xs, sink, at, w, p, notes'[p]))
  }

  ghost predicate NotedOf(d: Drawing, xs: map<Id, real>, sink: map<Id, Id>, at: map<Id, real>, w: Id, p: (Id, Id), note: real) {
    w in at && Foreign(d, sink, w) && Pair(d, sink, w) == p && note == LeftOver(d, xs, at, w)
  }

  /** w, which has just been looked at, is tracked from now on. */
  lemma TrackedMore(d: Drawing, xs: map<Id, real>, sink: map<Id, Id>, done: set<Id>, at: map<Id, real>, notes: map<(Id, Id), real>,
                    w: Id, x: real, notes': map<(Id, Id), real>)
    requires Settled(d, xs, sink, done) && Tracked(d, xs, sink, done, at, notes) && w !in at
    requires LookedAt(d, xs, sink, done, at[w := x], w) && Renoted(d, xs, sink, at[w := x], notes, notes', w)
    ensures Tracked(d, xs, sink, done, at[w := x], notes')
  {
    hide *;
    var at' := at[w := x];
    forall y | y in at
      ensures y in at' && at'[y] == at[y] && SameBeside(d, xs, sink, xs, sink, y) && d.Root(y) in sink && d.Root(y) in xs
    {
      TrackedLooked(d, xs, sink, done, at, notes, y);
      LookedParts(d, xs, sink, done, at, y);
      SameSelf(d, xs, sink, y);
    }
    TrackedFrame(d, xs, sink, done, at, notes, xs, sink, done, at');
    forall y | y in at' ensures NoteFits(d, xs, sink, at', notes', y) {
      if y == w {
        FitsNow(d, xs, sink, at', notes, notes', w);
      } else {
        FitsStill(d, xs, sink, at', notes, notes', w, y);
      }
    }
    forall p | p in notes' ensures NoteFrom(d, xs, sink, at', p, notes'[p]) {
      RenotedFrom(d, xs, sink, at', notes, notes', w, p);
    }
    NotesMade(d, xs, sink, at', notes');
    TrackedParts(d, xs, sink, done, at, notes);
    forall r | r in done ensures r in xs && Leftmost(d, xs, sink, r, |d.s.layering|, xs[r]) {
      TrackedBlock(d, xs, sink, done, at, notes, r);
    }
    TrackedMade(d, xs, sink, done, at', notes');
  }

  lemma LookedParts(d: Drawing, xs: map<Id, real>, sink: map<Id, Id>, done: set<Id>, at: map<Id, real>, y: Id)
    requires LookedAt(d, xs, sink, done, at, y)
    ensures y in at && y in d.s.pos && d.s.P(y) > 0 && Beside(d, y) in done && Beside(d, y) in xs && Beside(d, y) in sink
    ensures d.Root(y) in xs && d.Root(y) in sink && Leftmost(d, xs, sink, d.Root(y), d.s.L(y), at[y])
  {
    hide Drawing.Root, Drawing.Left, Sheet.L, Sheet.P, Beside, Leftmost;
  }

  lemma SameSelf(d: Drawing, xs: map<Id, real>, sink: map<Id, Id>, y: Id)
    requires Beside(d, y) in xs && Beside(d, y) in sink
    ensures SameBeside(d, xs, sink, xs, sink, y)
  {
    hide Beside;
  }

  lemma FitsNow(d: Drawing, xs: map<Id, real>, sink: map<Id, Id>, at: map<Id, real>, notes: map<(Id, Id), real>,
                notes': map<(Id, Id), real>, w: Id)
    requires Renoted(d, xs, sink, at, notes, notes', w)
    ensures NoteFits(d, xs, sink, at, notes', w)
  {
    hide Foreign, Pair, LeftOver, NotedOf;
  }

  lemma FitsStill(d: Drawing, xs: map<Id, real>, sink: map<Id, Id>, at: map<Id, real>, notes: map<(Id, Id), real>,
                  notes': map<(Id, Id), real>, w: Id, y: Id)
    requires Renoted(d, xs, sink, at, notes, notes', w) && NoteFits(d, xs, sink, at, notes, y)
    ensures NoteFits(d, xs, sink, at, notes', y)
  {
    hide Foreign, Pair, LeftOver, NotedOf;
  }

  lemma RenotedFrom(d: Drawing, xs: map<Id, real>, sink: map<Id, Id>, at: map<Id, real>, notes: map<(Id, Id), real>,
                    notes': map<(Id, Id), real>, w: Id, p: (Id, Id))
    requires Renoted(d, xs, sink, at, notes, notes', w) && p in notes'
    requires forall q :: q in notes ==> NoteFrom(d, xs, sink, at, q, notes[q])
    ensures NoteFrom(d, xs, sink, at, p, notes'[p])
  {
    hide Foreign, Pair, LeftOver;
  }

  /** Neither the sheet nor the nodes looked at tell different limits apart. */
  lemma TrackedToTurn(d: Drawing, xs: map<Id, real>, sink: map<Id, Id>, at: map<Id, real>, v: Id, lim: nat, lim': nat)
    requires TrackedTo(d, xs, sink, at, v, lim)
    requires forall y :: y in d.s.pos && d.Root(y) == v && d.s.P(y) > 0 ==> (d.s.L(y) < lim <==> d.s.L(y) < lim')
    ensures TrackedTo(d, xs, sink, at, v, lim')
  {
    LeftmostTurn(d, xs, sink, v, lim, lim', xs[v]);
    hide Drawing.Root, Drawing.Left, Sheet.L, Sheet.P, Leftmost;
  }

  lemma TrackedToParts(d: Drawing, xs: map<Id, real>, sink: map<Id, Id>, at: map<Id, real>, v: Id, lim: nat)
    requires TrackedTo(d, xs, sink, at, v, lim)
    ensures v in xs && v in sink && Leftmost(d, xs, sink, v, lim, xs[v])
    ensures forall y :: y in d.s.pos && d.Root(y) == v && d.s.P(y) > 0 ==> (y in at <==> d.s.L(y) < lim)
  {
    hide Drawing.Root, Drawing.Left, Sheet.L, Sheet.P, Leftmost;
  }

  lemma TrackedToMade(d: Drawing, xs: map<Id, real>, sink: map<Id, Id>, at: map<Id, real>, v: Id, lim: nat)
    requires v in xs && v in sink && Leftmost(d, xs, sink, v, lim, xs[v])
    requires forall y :: y in d.s.pos && d.Root(y) == v && d.s.P(y) > 0 ==> (y in at <==> d.s.L(y) < lim)
    ensures TrackedTo(d, xs, sink, at, v, lim)
  {
    hide Drawing.Root, Drawing.Left, Sheet.L, Sheet.P, Leftmost;
  }

  /** Before its first node v stands at zero. */
  lemma TrackedStarts(d: Drawing, up: map<Id, Id>, rho: map<Id, real>, xs: map<Id, real>, sink: map<Id, Id>, done: set<Id>,
                      at: map<Id, real>, notes: map<(Id, Id), real>, v: Id)
    requires d.Valid(up, rho) && Settled(d, xs, sink, done) && Tracked(d, xs, sink, done, at, notes)
    requires v in d.s.pos && v !in xs
    ensures Tracked(d, xs[v := 0.0], sink, done, at, notes) && TrackedTo(d, xs[v := 0.0], sink, at, v, d.s.L(v))
  {
    hide *;
    Unsettled(d, xs, sink, done, v);
    JoinsNone(sink, v);
    MayStay(d, sink, at, v);
    TrackedAdjust(d, xs, sink, done, at, notes, v, 0.0, sink[v]);
    NothingAbove(d, up, rho, v);
    forall y | y in d.s.pos && d.Root(y) == v && d.s.P(y) > 0 ensures y !in at && d.s.L(y) >= d.s.L(v) {
      if y in at {
        TrackedLooked(d, xs, sink, done, at, notes, y);
        LookedParts(d, xs, sink, done, at, y);
      }
    }
    NothingPushes(d, xs[v := 0.0], sink, v, d.s.L(v));
    TrackedToMade(d, xs[v := 0.0], sink, at, v, d.s.L(v));
  }

  lemma JoinsNone(sink: map<Id, Id>, v: Id)
    requires v in sink
    ensures sink[v := sink[v]] == sink
  {
  }

  lemma MayStay(d: Drawing, sink: map<Id, Id>, at: map<Id, real>, v: Id)
    requires v in sink
    ensures MayJoin(d, sink, at, v, sink[v])
  {
  }

  lemma NothingPushes(d: Drawing, xs: map<Id, real>, sink: map<Id, Id>, v: Id, lim: nat)
    requires forall y :: y in d.s.pos && d.Root(y) == v && d.s.P(y) > 0 ==> d.s.L(y) >= lim
    ensures Leftmost(d, xs, sink, v, lim, 0.0)
  {
    hide Drawing.Root, Drawing.Left, Sheet.L, Sheet.P, Beside, Edge;
  }

  /** Placing a block to the left keeps what has been done for v. */
  lemma TrackedToKept(d: Drawing, xs: map<Id, real>, sink: map<Id, Id>, done: set<Id>, at: map<Id, real>,
                      xs': map<Id, real>, sink': map<Id, Id>, done': set<Id>, at': map<Id, real>, v: Id, lim: nat)
    requires TrackedTo(d, xs, sink, at, v, lim) && Working(d, xs, sink, done, v, lim)
    requires Kept(xs, sink, done, xs', sink', done') && AtGrows(d, xs, at, at')
    ensures TrackedTo(d, xs', sink', at', v, lim)
  {
    hide *;
    TrackedToParts(d, xs, sink, at, v, lim);
    WorkingSettled(d, xs, sink, done, v, lim);
    KeptAt(xs, sink, done, xs', sink', done', v);
    forall y | y in d.s.pos && d.Root(y) == v && d.s.P(y) > 0 && d.s.L(y) < lim ensures SameBeside(d, xs, sink, xs', sink', y) {
      WorkingOn(d, xs, sink, done, v, lim, y);
      BesideIs(d, y);
      SettledIn(d, xs, sink, done, Beside(d, y));
      KeptAt(xs, sink, done, xs', sink', done', Beside(d, y));
      SameMade(d, xs, sink, xs', sink', y);
    }
    LeftmostKept(d, xs, sink, xs', sink', v, lim, xs[v]);
    GrowsAt(d, xs, at, at');
    TrackedToMade(d, xs', sink', at', v, lim);
  }

  lemma KeptAt(xs: map<Id, real>, sink: map<Id, Id>, done: set<Id>, xs': map<Id, real>, sink': map<Id, Id>, done': set<Id>, x: Id)
    requires Kept(xs, sink, done, xs', sink', done') && x in xs && x in sink
    ensures x in xs' && xs'[x] == xs[x] && x in sink' && sink'[x] == sink[x]
  {
  }

  lemma BesideIs(d: Drawing, y: Id)
    ensures Beside(d, y) == d.Root(d.Left(y))
  {
    hide Drawing.Root, Drawing.Left;
  }

  lemma SameMade(d: Drawing, xs: map<Id, real>, sink: map<Id, Id>, xs': map<Id, real>, sink': map<Id, Id>, y: Id)
    requires var u := Beside(d, y); u in xs && u in xs' && xs'[u] == xs[u] && u in sink && u in sink' && sink'[u] == sink[u]
    ensures SameBeside(d, xs, sink, xs', sink', y)
  {
    hide Beside;
  }

  lemma GrowsAt(d: Drawing, xs: map<Id, real>, at: map<Id, real>, at': map<Id, real>)
    requires AtGrows(d, xs, at, at')
    ensures forall y :: d.Root(y) in xs ==> (y in at' <==> y in at)
    ensures forall y :: y in at ==> y in at' && at'[y] == at[y]
  {
    hide Drawing.Root;
  }

  /** The step for the node w: v joins class t, moves from x0 to x, and what is left over to the left of w is noted. */
  lemma TrackedStep(d: Drawing, up: map<Id, Id>, xs: map<Id, real>, sink: map<Id, Id>, done: set<Id>, at: map<Id, real>,
                    notes: map<(Id, Id), real>, v: Id, w: Id, t: Id, x: real, notes': map<(Id, Id), real>)
    requires Chained(d.s, up, d.root, d.align) && Working(d, xs, sink, done, v, d.s.L(w)) && w in d.s.pos && d.Root(w) == v
    requires Tracked(d, xs, sink, done, at, notes) && TrackedTo(d, xs, sink, at, v, d.s.L(w))
    requires d.s.P(w) > 0 && Beside(d, w) in done && Beside(d, w) in sink && v in sink && v in xs && v in d.s.pos
    requires t == (if sink[v] == v then sink[Beside(d, w)] else sink[v])
    requires x == (if t == sink[Beside(d, w)] && xs[v] < Edge(d, xs, w) then Edge(d, xs, w) else xs[v])
    requires Renoted(d, xs[v := x], sink[v := t], at[w := xs[v]], notes, notes', w)
    ensures Tracked(d, xs[v := x], sink[v := t], done, at[w := xs[v]], notes')
    ensures TrackedTo(d, xs[v := x], sink[v := t], at[w := xs[v]], v, d.s.L(w) + 1)
  {
    hide *;
    var xs', sink', at' := xs[v := x], sink[v := t], at[w := xs[v]];
    WorkingSettled(d, xs, sink, done, v, d.s.L(w));
    TrackedToParts(d, xs, sink, at, v, d.s.L(w));
    JoinsFirst(d, xs, sink, done, at, notes, v, w, t);
    TrackedAdjust(d, xs, sink, done, at, notes, v, x, t);
    SettledAdjust(d, xs, sink, done, v, x, t);
    SettledIn(d, xs, sink, done, Beside(d, w));
    forall y | y in d.s.pos && d.Root(y) == v && d.s.P(y) > 0 && d.s.L(y) < d.s.L(w)
      ensures SameBeside(d, xs, sink, xs', sink', y) && sink'[v] == sink[v]
    {
      WorkingOn(d, xs, sink, done, v, d.s.L(w), y);
      BesideIs(d, y);
      SettledIn(d, xs, sink, done, Beside(d, y));
      SameMade(d, xs, sink, xs', sink', y);
    }
    LeftmostKept(d, xs, sink, xs', sink', v, d.s.L(w), xs[v]);
    OnlyOne(d, up, v, w);
    EdgeKept(d, xs, xs', w);
    LeftmostStep(d, xs', sink', v, w, xs[v]);
    LookedNow(d, xs', sink', done, at', w);
    TrackedMore(d, xs', sink', done, at, notes, w, xs[v], notes');
    TrackedToMade(d, xs', sink', at', v, d.s.L(w) + 1);
  }

  lemma EdgeKept(d: Drawing, xs: map<Id, real>, xs': map<Id, real>, w: Id)
    requires Beside(d, w) in xs && Beside(d, w) in xs' && xs'[Beside(d, w)] == xs[Beside(d, w)]
    ensures Edge(d, xs', w) == Edge(d, xs, w)
  {
    hide Beside, Drawing.Left;
  }

  lemma LookedNow(d: Drawing, xs: map<Id, real>, sink: map<Id, Id>, done: set<Id>, at: map<Id, real>, w: Id)
    requires w in at && w in d.s.pos && d.s.P(w) > 0 && Beside(d, w) in done && Beside(d, w) in xs && Beside(d, w) in sink
    requires d.Root(w) in xs && d.Root(w) in sink && Leftmost(d, xs, sink, d.Root(w), d.s.L(w), at[w])
    requires forall z :: z in d.s.pos && d.Root(z) == d.Root(w) && d.s.L(z) < d.s.L(w) && d.s.P(z) > 0 ==> z in at
    ensures LookedAt(d, xs, sink, done, at, w)
  {
    hide Drawing.Root, Drawing.Left, Sheet.L, Sheet.P, Beside, Leftmost;
  }

  /** A block changes its class only at its topmost node with a left neighbour. */
  lemma JoinsFirst(d: Drawing, xs: map<Id, real>, sink: map<Id, Id>, done: set<Id>, at: map<Id, real>, notes: map<(Id, Id), real>,
                   v: Id, w: Id, t: Id)
    requires Working(d, xs, sink, done, v, d.s.L(w)) && Tracked(d, xs, sink, done, at, notes) && TrackedTo(d, xs, sink, at, v, d.s.L(w))
    requires v in sink && (sink[v] == v || t == sink[v])
    ensures MayJoin(d, sink, at, v, t)
  {
    hide *;
    TrackedToParts(d, xs, sink, at, v, d.s.L(w));
    forall y | y in at && d.Root(y) == v ensures sink[v] != v {
      TrackedLooked(d, xs, sink, done, at, notes, y);
      LookedParts(d, xs, sink, done, at, y);
      WorkingOn(d, xs, sink, done, v, d.s.L(w), y);
    }
    MayJoinMade(d, sink, at, v, t);
  }

  lemma MayJoinMade(d: Drawing, sink: map<Id, Id>, at: map<Id, real>, v: Id, t: Id)
    requires v in sink && (t == sink[v] || forall y :: y in at ==> d.Root(y) != v)
    ensures MayJoin(d, sink, at, v, t)
  {
    hide Drawing.Root;
  }

  /** The block v is done. */
  lemma TrackedEnds(d: Drawing, xs: map<Id, real>, sink: map<Id, Id>, done: set<Id>, at: map<Id, real>, notes: map<(Id, Id), real>, v: Id)
    requires d.s.Valid() && Tracked(d, xs, sink, done, at, notes) && TrackedTo(d, xs, sink, at, v, |d.s.layering|)
    ensures Tracked(d, xs, sink, done + {v}, at, notes)
  {
    hide *;
    TrackedParts(d, xs, sink, done, at, notes);
    TrackedToParts(d, xs, sink, at, v, |d.s.layering|);
    forall y | y in at ensures LookedAt(d, xs, sink, done + {v}, at, y) {
      TrackedLooked(d, xs, sink, done, at, notes, y);
      LookedMore(d, xs, sink, done, at, y, v);
    }
    forall y | y in d.s.pos && d.Root(y) in done + {v} && d.s.P(y) > 0 ensures y in at {
      LayerBound(d.s, y);
    }
    forall r | r in done + {v} ensures r in xs && Leftmost(d, xs, sink, r, |d.s.layering|, xs[r]) {
      if r in done {
        TrackedBlock(d, xs, sink, done, at, notes, r);
      }
    }
    TrackedMade(d, xs, sink, done + {v}, at, notes);
  }

  lemma LookedMore(d: Drawing, xs: map<Id, real>, sink: map<Id, Id>, done: set<Id>, at: map<Id, real>, y: Id, v: Id)
    requires LookedAt(d, xs, sink, done, at, y)
    ensures LookedAt(d, xs, sink, done + {v}, at, y)
  {
    hide Drawing.Root, Drawing.Left, Sheet.L, Sheet.P, Beside, Leftmost;
  }

  lemma TrackedNothing(d: Drawing, sink: map<Id, Id>)
    ensures Tracked(d, map[], sink, {}, map[], map[])
  {
    hide Drawing.Root, Drawing.Left, Sheet.L, Sheet.P, Beside, Leftmost, LookedAt;
  }

  lemma AtSame(d: Drawing, xs: map<Id, real>, at: map<Id, real>)
    ensures AtGrows(d, xs, at, at)
  {
  }

  lemma AtMore(d: Drawing, xs: map<Id, real>, at: map<Id, real>, xs1: map<Id, real>, at1: map<Id, real>, at2: map<Id, real>)
    requires AtGrows(d, xs, at, at1) && xs.Keys <= xs1.Keys && AtGrows(d, xs1, at1, at2)
    ensures AtGrows(d, xs, at, at2)
  {
    hide Drawing.Root;
  }

  lemma AtNode(d: Drawing, xs: map<Id, real>, at: map<Id, real>, at1: map<Id, real>, w: Id, x: real)
    requires AtGrows(d, xs, at, at1) && d.Root(w) !in xs && w !in at1
    ensures AtGrows(d, xs, at, at1[w := x])
  {
    hide Drawing.Root;
  }

  // ---------- the algorithm ----------

  /** Notes that class `neighbor` could move left by delta towards class `toShift`; the least such delta is kept. */
  method UpdateShift(maybeShift: map<(Id, Id), real>, toShift: Id, neighbor: Id, delta: real) returns (r: map<(Id, Id), real>)
    ensures r.Keys == maybeShift.Keys + {(toShift, neighbor)}
    ensures forall p :: p in maybeShift && p != (toShift, neighbor) ==> r[p] == maybeShift[p]
    ensures r[(toShift, neighbor)] == delta || ((toShift, neighbor) in maybeShift && r[(toShift, neighbor)] == maybeShift[(toShift, neighbor)])
    ensures r[(toShift, neighbor)] <= delta
    ensures (toShift, neighbor) in maybeShift ==> r[(toShift, neighbor)] <= maybeShift[(toShift, neighbor)]
  {
    if (toShift, neighbor) !in maybeShift || delta < maybeShift[(toShift, neighbor)] {
      r := maybeShift[(toShift, neighbor) := delta];
    } else {
      r := maybeShift;
    }
  }

  /** Places the block v after every block to its left, as far left as these allow, and notes what is left over next to blocks of other
      classes; the blocks already placed stay where they are. */
  method PlaceBlock(d: Drawing, ghost up: map<Id, Id>, ghost rho: map<Id, real>, xs: map<Id, real>, sink: map<Id, Id>,
                    maybeShift: map<(Id, Id), real>, ghost done: set<Id>, ghost at: map<Id, real>, v: Id)
    returns (xs': map<Id, real>, sink': map<Id, Id>, maybeShift': map<(Id, Id), real>, ghost done': set<Id>, ghost at': map<Id, real>)
    requires d.Valid(up, rho) && Settled(d, xs, sink, done) && v in d.s.pos && d.Root(v) == v && Waiting(rho, xs, done, v)
    requires Tracked(d, xs, sink, done, at, maybeShift)
    ensures Settled(d, xs', sink', done') && v in done' && Kept(xs, sink, done, xs', sink', done')
    ensures Tracked(d, xs', sink', done', at', maybeShift') && AtGrows(d, xs, at, at')
    decreases Lefter(rho, v), 1
  {
    hide *;
    xs', sink', maybeShift', done', at' := xs, sink, maybeShift, done, at;
    AtSame(d, xs, at);
    if v in xs {
      Already(d, rho, xs, sink, done, v);
      return;
    }
    ValidParts(d, up, rho);
    Unsettled(d, xs, sink, done, v);
    WorkingStarts(d, up, rho, xs, sink, done, v);
    TrackedStarts(d, up, rho, xs, sink, done, at, maybeShift, v);
    LayerBound(d.s, v);
    xs' := xs'[v := 0.0];
    var w, more := v, true;
    while more
      invariant Grown(xs, sink, done, xs', sink', done', v) && AtGrows(d, xs, at, at')
      invariant w in d.s.pos && d.Root(w) == v && d.s.L(w) < |d.s.layering|
      invariant Working(d, xs', sink', done', v, if more then d.s.L(w) else |d.s.layering|)
      invariant Tracked(d, xs', sink', done', at', maybeShift')
      invariant TrackedTo(d, xs', sink', at', v, if more then d.s.L(w) else |d.s.layering|)
      decreases if more then |d.s.layering| - d.s.L(w) else 0
    {
      if d.s.P(w) > 0 {
        xs', sink', maybeShift', done', at' := PassNode(d, up, rho, xs, sink, done, at, xs', sink', maybeShift', done', at', v, w);
      } else {
        WorkingFirst(d, up, xs', sink', done', v, w);
        TrackedFirst(d, up, xs', sink', at', v, w);
      }
      WorkingTurn(d, up, xs', sink', done', v, w);
      TrackedTurn(d, up, xs', sink', at', v, w);
      w := d.align[w];
      more := w != v;
    }
    WorkingEnds(d, xs', sink', done', v);
    TrackedEnds(d, xs', sink', done', at', maybeShift', v);
    GrownEnds(xs, sink, done, xs', sink', done', v);
    done' := done' + {v};
  }

  lemma TrackedFirst(d: Drawing, up: map<Id, Id>, xs: map<Id, real>, sink: map<Id, Id>, at: map<Id, real>, v: Id, w: Id)
    requires Chained(d.s, up, d.root, d.align) && TrackedTo(d, xs, sink, at, v, d.s.L(w)) && w in d.s.pos && d.Root(w) == v && d.s.P(w) == 0
    ensures TrackedTo(d, xs, sink, at, v, d.s.L(w) + 1)
  {
    hide *;
    OnlyOne(d, up, v, w);
    TrackedToTurn(d, xs, sink, at, v, d.s.L(w), d.s.L(w) + 1);
  }

  lemma TrackedTurn(d: Drawing, up: map<Id, Id>, xs: map<Id, real>, sink: map<Id, Id>, at: map<Id, real>, v: Id, w: Id)
    requires Chained(d.s, up, d.root, d.align) && TrackedTo(d, xs, sink, at, v, d.s.L(w) + 1) && w in d.s.pos && d.Root(w) == v
    ensures w in d.align && d.align[w] in d.s.pos
    ensures TrackedTo(d, xs, sink, at, v, if d.align[w] == v then |d.s.layering| else d.s.L(d.align[w]))
  {
    hide *;
    BlocksParts(d.s, up, d.root, d.align);
    RingStep(d.s, up, d.root, d.align, w);
    RootIs(d, w);
    LayerBound(d.s, w);
    if d.align[w] == v {
      forall y | y in d.s.pos && d.Root(y) == v && d.s.P(y) > 0 ensures d.s.L(y) < d.s.L(w) + 1 <==> d.s.L(y) < |d.s.layering| {
        RootIs(d, y);
      }
      TrackedToTurn(d, xs, sink, at, v, d.s.L(w) + 1, |d.s.layering|);
    }
  }

  lemma Already(d: Drawing, rho: map<Id, real>, xs: map<Id, real>, sink: map<Id, Id>, done: set<Id>, v: Id)
    requires Settled(d, xs, sink, done) && Waiting(rho, xs, done, v) && v in xs
    ensures v in done && Kept(xs, sink, done, xs, sink, done)
  {
    hide Settled;
  }

  /** The step for a node w with a left neighbour: that one's block is placed first. */
  method PassNode(d: Drawing, ghost up: map<Id, Id>, ghost rho: map<Id, real>, ghost xs0: map<Id, real>, ghost sink0: map<Id, Id>,
                  ghost done0: set<Id>, ghost at0: map<Id, real>, xs: map<Id, real>, sink: map<Id, Id>, maybeShift: map<(Id, Id), real>,
                  ghost done: set<Id>, ghost at: map<Id, real>, v: Id, w: Id)
    returns (xs': map<Id, real>, sink': map<Id, Id>, maybeShift': map<(Id, Id), real>, ghost done': set<Id>, ghost at': map<Id, real>)
    requires d.Valid(up, rho) && w in d.s.pos && d.Root(w) == v && d.s.P(w) > 0 && v in d.s.pos && v !in xs0 && done0 <= xs0.Keys
    requires Working(d, xs, sink, done, v, d.s.L(w)) && Grown(xs0, sink0, done0, xs, sink, done, v) && Waiting(rho, xs0, done0, v)
    requires Tracked(d, xs, sink, done, at, maybeShift) && TrackedTo(d, xs, sink, at, v, d.s.L(w)) && AtGrows(d, xs0, at0, at)
    ensures Working(d, xs', sink', done', v, d.s.L(w) + 1) && Grown(xs0, sink0, done0, xs', sink', done', v)
    ensures Tracked(d, xs', sink', done', at', maybeShift') && TrackedTo(d, xs', sink', at', v, d.s.L(w) + 1) && AtGrows(d, xs0, at0, at')
    decreases Lefter(rho, v), 0
  {
    hide *;
    var u := d.Root(d.Left(w));
    BesideIs(d, w);
    LeftOf(d, up, rho, w, v, u);
    ValidParts(d, up, rho);
    WaitsOn(rho, xs0, sink0, done0, xs, sink, done, v, u);
    WorkingSettled(d, xs, sink, done, v, d.s.L(w));
    xs', sink', maybeShift', done', at' := PlaceBlock(d, up, rho, xs, sink, maybeShift, done, at, u);
    GrownKeys(xs0, sink0, done0, xs, sink, done, v);
    AtMore(d, xs0, at0, xs, at, at');
    TrackedToKept(d, xs, sink, done, at, xs', sink', done', at', v, d.s.L(w));
    WorkingKept(d, xs, sink, done, xs', sink', done', v, d.s.L(w));
    WorkingSettled(d, xs', sink', done', v, d.s.L(w));
    SettledIn(d, xs', sink', done', u);
    GrownFurther(xs0, sink0, done0, xs, sink, done, xs', sink', done', v);
    TrackedToParts(d, xs', sink', at', v, d.s.L(w));
    AtNode(d, xs0, at0, at', w, xs'[v]);
    ghost var xs1, sink1, at1, notes1 := xs', sink', at', maybeShift';
    if sink'[v] == v {
      sink' := sink'[v := sink'[u]];
    }
    var delta := d.sep(d.Left(w)) + d.sep(w);
    at' := at'[w := xs'[v]];
    if sink'[v] != sink'[u] {
      maybeShift' := UpdateShift(maybeShift', sink'[u], sink'[v], xs'[v] - xs'[u] - delta);
      Noting(d, xs1, sink', at', notes1, maybeShift', v, w, u);
    } else {
      xs' := xs'[v := if xs'[v] < xs'[u] + delta then xs'[u] + delta else xs'[v]];
      NotingNone(d, xs', sink', at', notes1, v, w, u);
    }
    EdgeIs(d, xs1, w, u);
    WorkingStep(d, up, xs1, sink1, done', v, w, u, sink'[v], xs'[v]);
    GrownAdjust(xs0, sink0, done0, xs1, sink1, done', v, sink'[v], xs'[v]);
    assert xs' == xs1[v := xs'[v]] && sink' == sink1[v := sink'[v]];
    TrackedStep(d, up, xs1, sink1, done', at1, notes1, v, w, sink'[v], xs'[v], maybeShift');
  }

  lemma GrownKeys(xs: map<Id, real>, sink: map<Id, Id>, done: set<Id>, xs': map<Id, real>, sink': map<Id, Id>, done': set<Id>, v: Id)
    requires Grown(xs, sink, done, xs', sink', done', v)
    ensures xs.Keys <= xs'.Keys
  {
  }

  lemma EdgeIs(d: Drawing, xs: map<Id, real>, w: Id, u: Id)
    requires u == Beside(d, w) && u in xs
    ensures Edge(d, xs, w) == xs[u] + (d.sep(d.Left(w)) + d.sep(w))
  {
    hide Beside, Drawing.Left;
  }

  lemma Noting(d: Drawing, xs: map<Id, real>, sink: map<Id, Id>, at: map<Id, real>, notes: map<(Id, Id), real>, notes': map<(Id, Id), real>,
               v: Id, w: Id, u: Id)
    requires d.Root(w) == v && u == Beside(d, w) && u in xs && u in sink && v in sink && sink[v] != sink[u] && w in at
    requires var p, note := (sink[u], sink[v]), at[w] - xs[u] - (d.sep(d.Left(w)) + d.sep(w));
      p in notes' && notes'[p] <= note && (notes'[p] == note || (p in notes && notes'[p] == notes[p])) && (p in notes ==> notes'[p] <= notes[p])
    requires notes'.Keys == notes.Keys + {(sink[u], sink[v])}
    requires forall p :: p in notes && p != (sink[u], sink[v]) ==> notes'[p] == notes[p]
    ensures Renoted(d, xs, sink, at, notes, notes', w)
  {
    hide Drawing.Root, Drawing.Left, Beside;
  }

  lemma NotingNone(d: Drawing, xs: map<Id, real>, sink: map<Id, Id>, at: map<Id, real>, notes: map<(Id, Id), real>, v: Id, w: Id, u: Id)
    requires d.Root(w) == v && u == Beside(d, w) && u in sink && v in sink && sink[v] == sink[u]
    ensures Renoted(d, xs, sink, at, notes, notes, w)
  {
    hide Drawing.Root, Beside, Pair, LeftOver;
  }

  // ---------- all blocks ----------

  /** The roots of the blocks all have their place. */
  lemma SettledAll(d: Drawing, up: map<Id, Id>, rho: map<Id, real>, xs: map<Id, real>, sink: map<Id, Id>, done: set<Id>)
    requires d.Valid(up, rho) && Settled(d, xs, sink, done) && done == xs.Keys && forall v :: v in d.s.pos ==> d.Root(v) in done
    ensures Placed(d, xs, sink)
  {
    hide *;
    SettledParts(d, xs, sink, done);
    forall v | v in d.s.pos && v in xs
      ensures d.Root(v) == v && (sink[v] != v ==> HasLeft(d, v, |d.s.layering|)) && sink[v] in xs && sink[v] in sink && sink[sink[v]] == sink[v]
    {
      SettledIn(d, xs, sink, done, v);
      SinkSettled(d, xs, sink, done, v);
      SunkParts(d, sink, done, v, |d.s.layering|);
    }
    forall w | w in d.s.pos && d.s.P(w) > 0 ensures d.Left(w) in d.s.pos && Apart(d, xs, sink, d.Root(w), w) {
      ValidParts(d, up, rho);
      LeftPlaced(d, w);
      SettledNext(d, xs, sink, done, w);
    }
    PlacedMade(d, xs, sink);
  }

  /** The relative coordinates xs of the roots and the classes sink: every block leaves room to its
      left within its class, takes its class from its topmost left neighbour, and starts a class of its own exactly
      when it has no left neighbour. */
  ghost predicate Placed(d: Drawing, xs: map<Id, real>, sink: map<Id, Id>) {
    && xs.Keys <= d.s.pos.Keys == sink.Keys
    && (forall v :: v in d.s.pos ==> d.Root(v) in xs)
    && (forall r :: r in d.s.pos && r in xs ==> d.Root(r) == r && (sink[r] != r ==> HasLeft(d, r, |d.s.layering|)))
    && (forall r :: r in d.s.pos && r in xs ==> sink[r] in xs && sink[r] in sink && sink[sink[r]] == sink[r])
    && (forall w :: w in d.s.pos && d.s.P(w) > 0 ==> d.Left(w) in d.s.pos && Apart(d, xs, sink, d.Root(w), w))
  }

  lemma PlacedMade(d: Drawing, xs: map<Id, real>, sink: map<Id, Id>)
    requires xs.Keys <= d.s.pos.Keys == sink.Keys
    requires forall v :: v in d.s.pos ==> d.Root(v) in xs
    requires forall r :: r in d.s.pos && r in xs ==> d.Root(r) == r && (sink[r] != r ==> HasLeft(d, r, |d.s.layering|))
    requires forall r :: r in d.s.pos && r in xs ==> sink[r] in xs && sink[r] in sink && sink[sink[r]] == sink[r]
    requires forall w :: w in d.s.pos && d.s.P(w) > 0 ==> d.Left(w) in d.s.pos && Apart(d, xs, sink, d.Root(w), w)
    ensures Placed(d, xs, sink)
  {
    hide Apart, HasLeft, Drawing.Root, Drawing.Left, Sheet.P, Sheet.L;
  }

  lemma SettledParts(d: Drawing, xs: map<Id, real>, sink: map<Id, Id>, done: set<Id>)
    requires Settled(d, xs, sink, done)
    ensures done <= xs.Keys <= d.s.pos.Keys == sink.Keys && forall r :: r in done ==> d.Root(r) == r
  {
    hide Apart, Sunk, Drawing.Root, Drawing.Left, Sheet.P, Sheet.L;
  }

  lemma SunkParts(d: Drawing, sink: map<Id, Id>, done: set<Id>, v: Id, lim: nat)
    requires Sunk(d, sink, done, v, lim)
    ensures v in sink && (sink[v] != v ==> HasLeft(d, v, lim)) && sink[v] in done && sink[v] in sink && sink[sink[v]] == sink[v]
  {
  }

  /** Every node with a left neighbour has been looked at: each block is as far left as its neighbours of the same class allow, and for
      each pair of classes the least room is noted that was left over between them. */
  ghost predicate Noted(d: Drawing, xs: map<Id, real>, sink: map<Id, Id>, at: map<Id, real>, notes: map<(Id, Id), real>) {
    Tracked(d, xs, sink, xs.Keys, at, notes) && forall w :: w in d.s.pos && d.s.P(w) > 0 ==> w in at
  }

  lemma NotedAll(d: Drawing, xs: map<Id, real>, sink: map<Id, Id>, done: set<Id>, at: map<Id, real>, notes: map<(Id, Id), real>)
    requires Tracked(d, xs, sink, done, at, notes) && done == xs.Keys && forall v :: v in d.s.pos ==> d.Root(v) in done
    ensures Noted(d, xs, sink, at, notes)
  {
    hide *;
    TrackedParts(d, xs, sink, done, at, notes);
    NotedMade(d, xs, sink, at, notes);
  }

  lemma NotedMade(d: Drawing, xs: map<Id, real>, sink: map<Id, Id>, at: map<Id, real>, notes: map<(Id, Id), real>)
    requires Tracked(d, xs, sink, xs.Keys, at, notes) && forall w :: w in d.s.pos && d.s.P(w) > 0 ==> w in at
    ensures Noted(d, xs, sink, at, notes)
  {
    hide Tracked, Sheet.P;
  }

  /** What is noted for neighbours of different classes is no more than the room between them. */
  lemma NoteBound(d: Drawing, xs: map<Id, real>, sink: map<Id, Id>, at: map<Id, real>, notes: map<(Id, Id), real>, w: Id)
    requires d.s.Valid() && Noted(d, xs, sink, at, notes) && w in d.s.pos && d.s.P(w) > 0
    ensures d.Root(w) in xs && Beside(d, w) in xs && d.Root(w) in sink && Beside(d, w) in sink
    ensures var p := (sink[Beside(d, w)], sink[d.Root(w)]);
      p.0 != p.1 ==> p in notes && notes[p] <= xs[d.Root(w)] - xs[Beside(d, w)] - d.sep(d.Left(w)) - d.sep(w)
  {
    hide *;
    var r := d.Root(w);
    NotedAt(d, xs, sink, at, notes, w);
    TrackedLooked(d, xs, sink, xs.Keys, at, notes, w);
    LookedParts(d, xs, sink, xs.Keys, at, w);
    TrackedBlock(d, xs, sink, xs.Keys, at, notes, r);
    LayerBound(d.s, w);
    LeftmostGrows(d, xs, sink, r, d.s.L(w), |d.s.layering|, at[w], xs[r]);
    EdgeIs(d, xs, w, Beside(d, w));
    NoteGives(d, xs, sink, at, notes, w);
  }

  lemma NotedAt(d: Drawing, xs: map<Id, real>, sink: map<Id, Id>, at: map<Id, real>, notes: map<(Id, Id), real>, w: Id)
    requires Noted(d, xs, sink, at, notes) && w in d.s.pos && d.s.P(w) > 0
    ensures Tracked(d, xs, sink, xs.Keys, at, notes) && w in at
  {
    hide Tracked, Sheet.P;
  }

  lemma NoteGives(d: Drawing, xs: map<Id, real>, sink: map<Id, Id>, at: map<Id, real>, notes: map<(Id, Id), real>, w: Id)
    requires NoteFits(d, xs, sink, at, notes, w) && w in at && d.Root(w) in sink && Beside(d, w) in sink
    ensures var p := (sink[Beside(d, w)], sink[d.Root(w)]); p.0 != p.1 ==> p in notes && notes[p] <= at[w] - Edge(d, xs, w)
  {
    hide Drawing.Root, Beside, Edge;
  }

  /** The x coordinates, relative to the class heads. */
  method PlaceAll(d: Drawing, ghost up: map<Id, Id>)
    returns (xs: map<Id, real>, sink: map<Id, Id>, maybeShift: map<(Id, Id), real>, ghost at: map<Id, real>)
    requires Chained(d.s, up, d.root, d.align)
    ensures Placed(d, xs, sink) && Noted(d, xs, sink, at, maybeShift)
  {
    hide *;
    ghost var rho := Columns(d.s, up, d.root, d.align);
    ValidMade(d, up, rho);
    xs, maybeShift, at := map[], map[], map[];
    sink := map u | u in d.s.pos :: u;
    ghost var done: set<Id> := {};
    NothingSettled(d, sink);
    TrackedNothing(d, sink);
    var q := Listing(d.root.Keys);
    NoRoots(d, q, done);
    BlocksParts(d.s, up, d.root, d.align);
    for i := 0 to |q|
      invariant Settled(d, xs, sink, done) && done == xs.Keys && RootsIn(d, q, i, done) && Tracked(d, xs, sink, done, at, maybeShift)
    {
      var v := d.Root(q[i]);
      InListing(q, d.root.Keys, i);
      RootIs(d, q[i]);
      RootAbove(d.s, up, d.root, q[i]);
      RootOfRoot(d, q[i]);
      NoneWaiting(d, rho, xs, done, v);
      ghost var xs0, sink0, done0 := xs, sink, done;
      xs, sink, maybeShift, done, at := PlaceBlock(d, up, rho, xs, sink, maybeShift, done, at, v);
      SettledParts(d, xs, sink, done);
      AllDone(xs0, sink0, done0, xs, sink, done);
      RootsMore(d, q, i, done0, done);
    }
    RootsDone(d, q, done);
    SettledAll(d, up, rho, xs, sink, done);
    NotedAll(d, xs, sink, done, at, maybeShift);
  }

  lemma ValidMade(d: Drawing, up: map<Id, Id>, rho: map<Id, real>)
    requires Chained(d.s, up, d.root, d.align) && Columned(d.s, d.root, rho)
    ensures d.Valid(up, rho) && d.root.Keys == d.s.pos.Keys == rho.Keys
  {
    hide Sheet.Valid, Sheet.Linked, Sheet.Rings;
  }

  lemma NothingSettled(d: Drawing, sink: map<Id, Id>)
    requires sink.Keys == d.s.pos.Keys && forall u :: u in sink ==> sink[u] == u
    ensures Settled(d, map[], sink, {})
  {
    hide Apart, Sunk, Drawing.Root;
  }

  lemma InListing(q: seq<Id>, s: set<Id>, i: nat)
    requires Lists(q, s) && i < |q|
    ensures q[i] in s
  {
  }

  lemma NoneWaiting(d: Drawing, rho: map<Id, real>, xs: map<Id, real>, done: set<Id>, v: Id)
    requires done == xs.Keys && v in rho
    ensures Waiting(rho, xs, done, v)
  {
  }

  lemma AllDone(xs: map<Id, real>, sink: map<Id, Id>, done: set<Id>, xs': map<Id, real>, sink': map<Id, Id>, done': set<Id>)
    requires Kept(xs, sink, done, xs', sink', done') && done == xs.Keys && done' <= xs'.Keys
    ensures done' == xs'.Keys && done <= done'
  {
    forall x | x in xs'.Keys ensures x in done' {
      assert x in xs'.Keys - done' ==> x in xs.Keys - done;
    }
  }

  /** The blocks of the first i nodes are done. */
  ghost predicate RootsIn(d: Drawing, q: seq<Id>, i: nat, done: set<Id>) {
    forall j :: 0 <= j < i && j < |q| ==> d.Root(q[j]) in done
  }

  lemma NoRoots(d: Drawing, q: seq<Id>, done: set<Id>)
    ensures RootsIn(d, q, 0, done)
  {
  }

  lemma RootsMore(d: Drawing, q: seq<Id>, i: nat, done: set<Id>, done': set<Id>)
    requires RootsIn(d, q, i, done) && done <= done' && i < |q| && d.Root(q[i]) in done'
    ensures RootsIn(d, q, i + 1, done')
  {
    hide Drawing.Root;
  }

  lemma RootsDone(d: Drawing, q: seq<Id>, done: set<Id>)
    requires Lists(q, d.root.Keys) && d.root.Keys == d.s.pos.Keys && RootsIn(d, q, |q|, done)
    ensures forall v :: v in d.s.pos ==> d.Root(v) in done
  {
    hide Drawing.Root;
  }
}
