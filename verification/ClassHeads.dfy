/** Which classes the blocks fall into, and where the heads of the classes stand: going to the right along a layer, the heads of the
    classes met come from earlier and earlier layers. */
module ClassHeads {
  import opened Base
  import opened Digraphs
  import opened Alignments
  import opened Blocks
  import opened Placements

  /** The class of a node, by its head. */
  ghost function ClassOf(d: Drawing, sink: map<Id, Id>, v: Id): Id {
    if d.Root(v) in sink then sink[d.Root(v)] else v
  }

  /** How the classes come about: a block without left neighbours heads a class, every other one
      joins that of its topmost left neighbour. */
  ghost predicate Classes(d: Drawing, sink: map<Id, Id>) {
    && d.s.pos.Keys <= sink.Keys
    && (forall v :: v in d.s.pos && !HasLeft(d, d.Root(v), |d.s.layering|) ==> ClassOf(d, sink, v) == d.Root(v))
    && (forall w :: w in d.s.pos && First(d, w) ==> ClassOf(d, sink, d.Left(w)) == ClassOf(d, sink, w))
  }

  /** The layer of the head of v's class. */
  ghost function HeadRow(d: Drawing, sink: map<Id, Id>, v: Id): nat {
    d.s.L(ClassOf(d, sink, v))
  }

  ghost predicate Classed(d: Drawing, up: map<Id, Id>, rho: map<Id, real>, sink: map<Id, Id>) {
    d.Valid(up, rho) && Classes(d, sink)
  }

  lemma ClassedParts(d: Drawing, up: map<Id, Id>, rho: map<Id, real>, sink: map<Id, Id>)
    requires Classed(d, up, rho, sink)
    ensures d.Valid(up, rho) && Chained(d.s, up, d.root, d.align) && Columned(d.s, d.root, rho) && Classes(d, sink)
    ensures d.s.Valid() && d.s.Linked(up) && d.s.Tops(up, d.root) && d.root.Keys == d.s.pos.Keys && d.s.pos.Keys <= sink.Keys
  {
    hide Drawing.Root, Drawing.Left, HasLeft, First, Drawing.Valid, ClassOf;
    ValidParts(d, up, rho);
  }

  lemma SameClass(d: Drawing, sink: map<Id, Id>, v: Id, w: Id)
    requires d.Root(v) == d.Root(w) && d.Root(v) in sink
    ensures ClassOf(d, sink, v) == ClassOf(d, sink, w) && HeadRow(d, sink, v) == HeadRow(d, sink, w)
  {
    hide Drawing.Root, Sheet.L;
  }

  /** The topmost node of the block with a left neighbour. */
  lemma {:induction false} Topmost(d: Drawing, r: Id, y: Id) returns (w: Id)
    requires y in d.s.pos && d.Root(y) == r && d.s.P(y) > 0
    ensures First(d, w) && w in d.s.pos && d.Root(w) == r && d.s.P(w) > 0 && d.s.L(w) <= d.s.L(y)
    decreases d.s.L(y)
  {
    hide Drawing.Root, Sheet.L, Sheet.P;
    if z :| z in d.s.pos && d.Root(z) == r && d.s.P(z) > 0 && d.s.L(z) < d.s.L(y) {
      w := Topmost(d, r, z);
    } else {
      w := y;
    }
  }

  lemma FirstIs(d: Drawing, w: Id, y: Id)
    requires First(d, w) && y in d.s.pos && d.Root(y) == d.Root(w) && d.s.P(y) > 0
    ensures d.s.L(w) <= d.s.L(y)
  {
    hide Drawing.Root, Sheet.L, Sheet.P;
  }

  lemma LeftSome(d: Drawing, r: Id) returns (y: Id)
    requires HasLeft(d, r, |d.s.layering|)
    ensures y in d.s.pos && d.Root(y) == r && d.s.P(y) > 0
  {
    hide Drawing.Root, Sheet.L, Sheet.P;
    y :| y in d.s.pos && d.Root(y) == r && d.s.P(y) > 0;
  }

  lemma LeftNone(d: Drawing, r: Id, y: Id)
    requires d.s.Valid() && !HasLeft(d, r, |d.s.layering|) && y in d.s.pos && d.Root(y) == r
    ensures d.s.P(y) == 0
  {
    hide Drawing.Root, Sheet.P;
    LayerBound(d.s, y);
    hide Sheet.Valid;
  }

  /** A block joins the class of the left neighbour of its topmost node that has one. */
  lemma Joins(d: Drawing, up: map<Id, Id>, rho: map<Id, real>, sink: map<Id, Id>, w: Id)
    requires Classed(d, up, rho, sink) && First(d, w) && w in d.s.pos && d.s.P(w) > 0
    ensures d.Left(w) in d.s.pos && d.s.L(d.Left(w)) == d.s.L(w) && d.s.P(d.Left(w)) == d.s.P(w) - 1
    ensures ClassOf(d, sink, d.Left(w)) == ClassOf(d, sink, w) && HeadRow(d, sink, d.Left(w)) == HeadRow(d, sink, w)
    ensures Lefter(rho, d.Root(d.Left(w))) < Lefter(rho, d.Root(w))
  {
    hide *;
    ClassedParts(d, up, rho, sink);
    LeftPlaced(d, w);
    LeftOf(d, up, rho, w, d.Root(w), d.Root(d.Left(w)));
    JoinsSo(d, sink, w);
  }

  lemma JoinsSo(d: Drawing, sink: map<Id, Id>, w: Id)
    requires Classes(d, sink) && First(d, w) && w in d.s.pos
    ensures ClassOf(d, sink, d.Left(w)) == ClassOf(d, sink, w) && HeadRow(d, sink, d.Left(w)) == HeadRow(d, sink, w)
  {
    hide Drawing.Root, Drawing.Left, Sheet.L, Sheet.P, ClassOf, First;
  }

  lemma OwnClass(d: Drawing, sink: map<Id, Id>, v: Id)
    requires Classes(d, sink) && v in d.s.pos && !HasLeft(d, d.Root(v), |d.s.layering|)
    ensures ClassOf(d, sink, v) == d.Root(v) && HeadRow(d, sink, v) == d.s.L(d.Root(v))
  {
    hide Drawing.Root, Drawing.Left, Sheet.L, Sheet.P, ClassOf, First, HasLeft;
  }

  lemma RootAt(d: Drawing, up: map<Id, Id>, rho: map<Id, real>, sink: map<Id, Id>, v: Id)
    requires Classed(d, up, rho, sink) && v in d.s.pos
    ensures v in d.root && d.Root(v) in d.s.pos && d.Root(v) in sink && d.Root(d.Root(v)) == d.Root(v) && d.s.L(d.Root(v)) <= d.s.L(v)
    ensures v !in up ==> d.Root(v) == v
    ensures v in up ==> up[v] in d.s.pos && d.Root(up[v]) == d.Root(v) && d.s.L(up[v]) + 1 == d.s.L(v)
  {
    hide *;
    ClassedParts(d, up, rho, sink);
    RootAbove(d.s, up, d.root, v);
    RootOfRoot(d, v);
    UpOf(d.s, up, d.root, v);
    if v in up {
      RootIs(d, up[v]);
    }
  }

  lemma UpOf(s: Sheet, up: map<Id, Id>, root: map<Id, Id>, v: Id)
    requires s.Linked(up) && s.Tops(up, root) && v in s.pos
    ensures v !in up ==> root[v] == v
    ensures v in up ==> up[v] in s.pos && s.L(up[v]) + 1 == s.L(v) && root[up[v]] == root[v]
  {
    hide Sheet.Median, Sheet.Conflict, Sheet.L, Sheet.P;
  }

  lemma NoCrossing(s: Sheet, up: map<Id, Id>, v: Id, w: Id)
    requires s.Linked(up) && v in up && w in up && s.L(v) == s.L(w) && s.P(v) < s.P(w)
    ensures s.P(up[v]) < s.P(up[w])
  {
    hide Sheet.Median, Sheet.Conflict, Sheet.L, Sheet.P;
  }

  /** The head of a class is the root of a block along the left border. */
  lemma {:induction false} HeadIs(d: Drawing, up: map<Id, Id>, rho: map<Id, real>, sink: map<Id, Id>, v: Id)
    requires Classed(d, up, rho, sink) && v in d.s.pos
    ensures var c := ClassOf(d, sink, v); c in d.s.pos && d.Root(c) == c && d.s.P(c) == 0 && ClassOf(d, sink, c) == c
    decreases Lefter(rho, d.Root(v))
  {
    hide *;
    ClassedParts(d, up, rho, sink);
    RootAt(d, up, rho, sink, v);
    if HasLeft(d, d.Root(v), |d.s.layering|) {
      var y := LeftSome(d, d.Root(v));
      var w := Topmost(d, d.Root(v), y);
      Joins(d, up, rho, sink, w);
      SameClass(d, sink, v, w);
      HeadIs(d, up, rho, sink, d.Left(w));
    } else {
      OwnClass(d, sink, v);
      LeftNone(d, d.Root(v), d.Root(v));
      SameClass(d, sink, v, d.Root(v));
    }
  }

  /** The node in layer i of a block that reaches from above layer i to below. */
  lemma {:induction false} Climb(d: Drawing, up: map<Id, Id>, rho: map<Id, real>, sink: map<Id, Id>, w: Id, i: nat) returns (x: Id)
    requires Classed(d, up, rho, sink) && w in d.s.pos && d.s.L(d.Root(w)) <= i <= d.s.L(w)
    ensures x in d.s.pos && d.Root(x) == d.Root(w) && d.s.L(x) == i
    decreases d.s.L(w)
  {
    hide *;
    RootAt(d, up, rho, sink, w);
    if d.s.L(w) == i {
      x := w;
    } else {
      x := Climb(d, up, rho, sink, up[w], i);
    }
  }

  /** A node that starts a block and has a left neighbour is of its class. */
  lemma StartsHere(d: Drawing, up: map<Id, Id>, rho: map<Id, real>, sink: map<Id, Id>, z: Id)
    requires Classed(d, up, rho, sink) && z in d.s.pos && z !in up && d.s.P(z) > 0
    ensures d.Left(z) in d.s.pos && d.s.L(d.Left(z)) == d.s.L(z) && d.s.P(d.Left(z)) == d.s.P(z) - 1
    ensures HeadRow(d, sink, d.Left(z)) == HeadRow(d, sink, z)
  {
    hide *;
    RootAt(d, up, rho, sink, z);
    forall y | y in d.s.pos && d.Root(y) == d.Root(z) ensures d.s.L(z) <= d.s.L(y) {
      RootAt(d, up, rho, sink, y);
    }
    FirstMade(d, z);
    Joins(d, up, rho, sink, z);
  }

  lemma FirstMade(d: Drawing, w: Id)
    requires w in d.s.pos && d.s.P(w) > 0
    requires forall y :: y in d.s.pos && d.Root(y) == d.Root(w) && d.s.P(y) > 0 ==> d.s.L(w) <= d.s.L(y)
    ensures First(d, w)
  {
    hide Drawing.Root, Sheet.L, Sheet.P;
  }

  /** The leftmost node of layer i. */
  ghost function Border(d: Drawing, i: nat): Id
    requires d.s.In(i, 0)
  {
    d.s.layering[i][0]
  }

  lemma BorderAt(d: Drawing, i: nat, z: Id)
    requires d.s.Valid() && z in d.s.pos && d.s.L(z) == i
    ensures d.s.In(i, 0) && Border(d, i) in d.s.pos && d.s.L(Border(d, i)) == i && d.s.P(Border(d, i)) == 0
    ensures d.s.P(z) == 0 ==> z == Border(d, i)
  {
    assert d.s.In(d.s.L(z), d.s.P(z));
    assert d.s.In(i, 0);
  }

  /** To the left of a node whose block comes down from the left border all blocks start in this layer, and so are of one class. */
  lemma {:induction false} AlongBorder(d: Drawing, up: map<Id, Id>, rho: map<Id, real>, sink: map<Id, Id>, w: Id, z: Id)
    requires Classed(d, up, rho, sink) && w in d.s.pos && w in up && d.s.P(up[w]) == 0
    requires z in d.s.pos && d.s.L(z) == d.s.L(w) && d.s.P(z) < d.s.P(w)
    ensures d.s.In(d.s.L(w), 0) && Border(d, d.s.L(w)) !in up && Border(d, d.s.L(w)) in d.s.pos
    ensures HeadRow(d, sink, z) == HeadRow(d, sink, Border(d, d.s.L(w)))
    decreases d.s.P(z)
  {
    hide *;
    ClassedParts(d, up, rho, sink);
    BorderAt(d, d.s.L(w), z);
    if z in up {
      NoCrossing(d.s, up, z, w);
    }
    if d.s.P(z) > 0 {
      StartsHere(d, up, rho, sink, z);
      AlongBorder(d, up, rho, sink, w, d.Left(z));
    }
  }

  /** If a block starts at the left border of layer i, the classes met above layer i have their heads above it or are of that block's class. */
  lemma {:induction false} Upper(d: Drawing, up: map<Id, Id>, rho: map<Id, real>, sink: map<Id, Id>, i: nat, v: Id)
    requires Classed(d, up, rho, sink) && d.s.In(i, 0) && Border(d, i) in d.s.pos && Border(d, i) !in up && v in d.s.pos && d.s.L(v) < i
    ensures HeadRow(d, sink, v) < i || HeadRow(d, sink, v) == HeadRow(d, sink, Border(d, i))
    decreases Lefter(rho, d.Root(v))
  {
    hide *;
    ClassedParts(d, up, rho, sink);
    RootAt(d, up, rho, sink, v);
    if HasLeft(d, d.Root(v), |d.s.layering|) {
      var y := LeftSome(d, d.Root(v));
      var w := Topmost(d, d.Root(v), y);
      Joins(d, up, rho, sink, w);
      SameClass(d, sink, v, w);
      if d.s.L(w) < i {
        Upper(d, up, rho, sink, i, d.Left(w));
      } else {
        ReachesDown(d, up, rho, sink, i, v, w);
        AlongBorder(d, up, rho, sink, w, d.Left(w));
      }
    } else {
      OwnClass(d, sink, v);
    }
  }

  /** A block that has left neighbours only from layer i on, but starts above, comes down from the left border right there. */
  lemma ReachesDown(d: Drawing, up: map<Id, Id>, rho: map<Id, real>, sink: map<Id, Id>, i: nat, v: Id, w: Id)
    requires Classed(d, up, rho, sink) && d.s.In(i, 0) && Border(d, i) in d.s.pos && Border(d, i) !in up && v in d.s.pos && d.s.L(v) < i
    requires First(d, w) && w in d.s.pos && d.s.P(w) > 0 && d.Root(w) == d.Root(v) && i <= d.s.L(w)
    ensures d.s.L(w) == i && w in up && d.s.P(up[w]) == 0
  {
    hide *;
    ClassedParts(d, up, rho, sink);
    RootAt(d, up, rho, sink, v);
    RootAt(d, up, rho, sink, w);
    var x := Climb(d, up, rho, sink, w, i);
    BorderAt(d, i, x);
    RootAt(d, up, rho, sink, x);
    FirstIs(d, w, if d.s.P(x) > 0 then x else w);
    FirstIs(d, w, if w in up && d.s.P(up[w]) > 0 then up[w] else w);
  }

  /** A block that starts at the left border of layer i is of a class whose head is not above layer i. */
  lemma {:induction false} Lower(d: Drawing, up: map<Id, Id>, rho: map<Id, real>, sink: map<Id, Id>, i: nat)
    requires Classed(d, up, rho, sink) && d.s.In(i, 0) && Border(d, i) in d.s.pos && d.s.L(Border(d, i)) == i && Border(d, i) !in up
    ensures HeadRow(d, sink, Border(d, i)) >= i
    decreases |d.s.layering| - i
  {
    hide *;
    var l := Border(d, i);
    ClassedParts(d, up, rho, sink);
    RootAt(d, up, rho, sink, l);
    BorderAt(d, i, l);
    if HasLeft(d, l, |d.s.layering|) {
      var y := LeftSome(d, l);
      var w := Topmost(d, l, y);
      Joins(d, up, rho, sink, w);
      SameClass(d, sink, l, w);
      RootAt(d, up, rho, sink, w);
      RootAt(d, up, rho, sink, if w in up then up[w] else w);
      LayerBound(d.s, w);
      BorderAt(d, d.s.L(w), w);
      FirstIs(d, w, if w in up && d.s.P(up[w]) > 0 then up[w] else w);
      AlongBorder(d, up, rho, sink, w, d.Left(w));
      Lower(d, up, rho, sink, d.s.L(w));
    } else {
      OwnClass(d, sink, l);
    }
  }

  /** Along a layer, going to the right, the heads of the classes are in earlier and earlier layers. */
  lemma {:induction false} Descends(d: Drawing, up: map<Id, Id>, rho: map<Id, real>, sink: map<Id, Id>, z: Id, w: Id)
    requires Classed(d, up, rho, sink) && z in d.s.pos && w in d.s.pos && d.s.L(z) == d.s.L(w) && d.s.P(z) <= d.s.P(w)
    ensures HeadRow(d, sink, z) >= HeadRow(d, sink, w)
    decreases d.s.L(w), d.s.P(z) + d.s.P(w)
  {
    hide *;
    ClassedParts(d, up, rho, sink);
    RootAt(d, up, rho, sink, w);
    RootAt(d, up, rho, sink, z);
    BorderAt(d, d.s.L(w), z);
    if d.s.P(z) == d.s.P(w) {
      SamePlace(d.s, z, w);
    } else if w !in up {
      StartsHere(d, up, rho, sink, w);
      Descends(d, up, rho, sink, z, d.Left(w));
    } else if z in up {
      NoCrossing(d.s, up, z, w);
      Descends(d, up, rho, sink, up[z], up[w]);
      SameClass(d, sink, z, up[z]);
      SameClass(d, sink, w, up[w]);
    } else if d.s.P(z) > 0 {
      StartsHere(d, up, rho, sink, z);
      Descends(d, up, rho, sink, d.Left(z), w);
    } else {
      Lower(d, up, rho, sink, d.s.L(w));
      Upper(d, up, rho, sink, d.s.L(w), up[w]);
      SameClass(d, sink, w, up[w]);
    }
  }

  lemma SamePlace(s: Sheet, z: Id, w: Id)
    requires s.Valid() && z in s.pos && w in s.pos && s.L(z) == s.L(w) && s.P(z) == s.P(w)
    ensures z == w
  {
  }

  /** Where neighbours are of different classes, the head of the right one's class is in an earlier layer than that of the left one's:
      the shift of the right one's class is known when the left one's is computed. */
  lemma EarlierHead(d: Drawing, up: map<Id, Id>, rho: map<Id, real>, sink: map<Id, Id>, w: Id)
    requires Classed(d, up, rho, sink) && w in d.s.pos && d.s.P(w) > 0 && ClassOf(d, sink, d.Left(w)) != ClassOf(d, sink, w)
    ensures HeadRow(d, sink, w) < HeadRow(d, sink, d.Left(w))
  {
    hide *;
    ClassedParts(d, up, rho, sink);
    LeftPlaced(d, w);
    Descends(d, up, rho, sink, d.Left(w), w);
    HeadIs(d, up, rho, sink, w);
    HeadIs(d, up, rho, sink, d.Left(w));
    HeadRowIs(d, sink, w);
    HeadRowIs(d, sink, d.Left(w));
    if HeadRow(d, sink, w) == HeadRow(d, sink, d.Left(w)) {
      SamePlace(d.s, ClassOf(d, sink, d.Left(w)), ClassOf(d, sink, w));
    }
  }

  lemma HeadRowIs(d: Drawing, sink: map<Id, Id>, v: Id)
    ensures HeadRow(d, sink, v) == d.s.L(ClassOf(d, sink, v))
  {
  }
}
