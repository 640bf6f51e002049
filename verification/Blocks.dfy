/** What vertical alignment leaves: blocks of nodes, one above the other, that never cross and so can be drawn as columns. */
module Blocks {
  import opened Base
  import opened Digraphs
  import opened Alignments

  // ---------- what the blocks look like ----------

  ghost predicate Chained(s: Sheet, up: map<Id, Id>, root: map<Id, Id>, align: map<Id, Id>) {
    s.Valid() && s.Linked(up) && s.Blocks(up, root, align)
  }

  /** A block has at most one node in each layer. */
  lemma {:induction false} OnePerLayer(s: Sheet, up: map<Id, Id>, root: map<Id, Id>, align: map<Id, Id>, v: Id, w: Id)
    requires Chained(s, up, root, align) && v in s.pos && w in s.pos && s.L(v) == s.L(w)
    requires v in root && w in root && root[v] == root[w]
    ensures v == w
    decreases s.L(v)
  {
    hide Sheet.Median, Sheet.Conflict, Sheet.Valid, Sheet.Lowest;
    RootAbove(s, up, root, v);
    RootAbove(s, up, root, w);
    if v in up && w in up {
      OnePerLayer(s, up, root, align, up[v], up[w]);
    } else if v in up {
      RootAbove(s, up, root, up[v]);
    } else if w in up {
      RootAbove(s, up, root, up[w]);
    }
  }

  /** Below a node that is not the lowest of its block there is another one. */
  lemma {:induction false} NotLowest(s: Sheet, up: map<Id, Id>, root: map<Id, Id>, align: map<Id, Id>, w: Id, x: Id)
    requires Chained(s, up, root, align) && x in s.pos && w in s.pos && s.L(w) < s.L(x)
    requires x in root && w in root && root[x] == root[w]
    ensures !s.Lowest(up, w)
    decreases s.L(x)
  {
    hide Sheet.Median, Sheet.Conflict, Sheet.Valid;
    RootAbove(s, up, root, w);
    assert x in up;
    if s.L(up[x]) == s.L(w) {
      OnePerLayer(s, up, root, align, up[x], w);
    } else {
      NotLowest(s, up, root, align, w, up[x]);
    }
  }

  /** align leads from each node to the next one of its block, one layer down, and from the lowest
      node back to the top. */
  lemma RingStep(s: Sheet, up: map<Id, Id>, root: map<Id, Id>, align: map<Id, Id>, w: Id)
    requires Chained(s, up, root, align) && w in s.pos
    ensures w in align && w in root && root[w] in s.pos && s.L(root[w]) <= s.L(w)
    ensures align[w] in s.pos && align[w] in root && root[align[w]] == root[w]
    ensures align[w] != root[w] ==> s.L(align[w]) == s.L(w) + 1
    ensures align[w] == root[w] ==> forall x :: x in s.pos && x in root && root[x] == root[w] ==> s.L(x) <= s.L(w)
  {
    hide Sheet.Median, Sheet.Conflict, Sheet.Valid;
    RootAbove(s, up, root, w);
    if s.Lowest(up, w) {
      forall x | x in s.pos && x in root && root[x] == root[w] ensures s.L(x) <= s.L(w) {
        if s.L(w) < s.L(x) {
          NotLowest(s, up, root, align, w, x);
        }
      }
    } else {
      var v :| v in up && up[v] == w;
      assert align[w] == v;
    }
  }

  lemma BlocksParts(s: Sheet, up: map<Id, Id>, root: map<Id, Id>, align: map<Id, Id>)
    requires Chained(s, up, root, align)
    ensures s.Valid() && s.Linked(up) && s.Tops(up, root) && s.Rings(up, root, align)
    ensures root.Keys == align.Keys == s.pos.Keys
  {
    hide Sheet.Valid, Sheet.Linked, Sheet.Lowest;
  }

  lemma SameNext(s: Sheet, up: map<Id, Id>, root: map<Id, Id>, align: map<Id, Id>, x: Id, y: Id)
    requires Chained(s, up, root, align) && x in s.pos && y in s.pos && x in align && y in align && align[x] == align[y]
    ensures x == y
  {
    hide *;
    RingStep(s, up, root, align, x);
    RingStep(s, up, root, align, y);
    if s.L(x) == s.L(y) {
      OnePerLayer(s, up, root, align, x, y);
    }
  }

  ghost predicate LedTo(s: Sheet, align: map<Id, Id>, v: Id) {
    exists x :: x in s.pos && x in align && align[x] == v
  }

  /** align leads to v from the node above it, or from the lowest one of its block. */
  lemma Previous(s: Sheet, up: map<Id, Id>, root: map<Id, Id>, align: map<Id, Id>, v: Id)
    requires Chained(s, up, root, align) && v in s.pos
    ensures LedTo(s, align, v)
  {
    hide Sheet.Median, Sheet.Conflict, Sheet.Valid, Sheet.Lowest;
    var x;
    if v in up {
      x := up[v];
    } else {
      x := Bottom(s, up, root, align, v);
    }
    assert x in s.pos && x in align && align[x] == v;
  }

  lemma {:induction false} Bottom(s: Sheet, up: map<Id, Id>, root: map<Id, Id>, align: map<Id, Id>, w: Id) returns (x: Id)
    requires Chained(s, up, root, align) && w in s.pos && w in root
    ensures x in s.pos && x in align && align[x] == root[w]
    decreases |s.layering| - s.L(w)
  {
    hide *;
    RingStep(s, up, root, align, w);
    if align[w] == root[w] {
      x := w;
    } else {
      BlocksParts(s, up, root, align);
      LayerBound(s, align[w]);
      x := Bottom(s, up, root, align, align[w]);
    }
  }

  lemma LayerBound(s: Sheet, v: Id)
    requires s.Valid() && v in s.pos
    ensures s.L(v) < |s.layering|
  {
  }

  /** align permutes the nodes. */
  lemma AlignPermutes(s: Sheet, up: map<Id, Id>, root: map<Id, Id>, align: map<Id, Id>)
    requires Chained(s, up, root, align)
    ensures align.Keys == s.pos.Keys
    ensures forall x :: x in s.pos ==> align[x] in s.pos
    ensures forall x, y :: x in s.pos && y in s.pos && align[x] == align[y] ==> x == y
    ensures forall v :: v in s.pos ==> LedTo(s, align, v)
  {
    hide *;
    BlocksParts(s, up, root, align);
    forall x | x in s.pos ensures align[x] in s.pos {
      RingStep(s, up, root, align, x);
    }
    forall x, y | x in s.pos && y in s.pos && align[x] == align[y] ensures x == y {
      SameNext(s, up, root, align, x, y);
    }
    forall v | v in s.pos ensures LedTo(s, align, v) {
      Previous(s, up, root, align, v);
    }
  }

  // ---------- blocks never cross ----------

  /** Columns for the places before (i, k): the same along each chain, and growing along each layer. */
  ghost predicate Drawn(s: Sheet, up: map<Id, Id>, rho: map<Id, real>, i: nat, k: nat) {
    && (forall v :: v in rho <==> v in s.pos && s.Before(v, i, k))
    && (forall v :: v in up && v in rho && up[v] in rho ==> rho[v] == rho[up[v]])
    && (forall v, w :: v in rho && w in rho && s.L(v) == s.L(w) && s.P(v) < s.P(w) ==> rho[v] < rho[w])
  }

  /** The linked nodes still to come in layer i find room to the right of those already drawn. */
  ghost predicate Room(s: Sheet, up: map<Id, Id>, rho: map<Id, real>, i: nat, k: nat) {
    forall v, w :: v in rho && s.L(v) == i && w in up && s.L(w) == i && s.P(w) >= k && up[w] in rho ==> rho[v] < rho[up[w]]
  }

  /** a separates what is drawn of layer i from the linked nodes to come. */
  ghost predicate Separates(s: Sheet, up: map<Id, Id>, rho: map<Id, real>, i: nat, k: nat, a: real) {
    && (forall v :: v in rho && s.L(v) == i ==> rho[v] < a)
    && (forall w :: w in up && s.L(w) == i && s.P(w) > k && up[w] in rho ==> a < rho[up[w]])
  }

  lemma LinksEarlier(s: Sheet, up: map<Id, Id>, rho: map<Id, real>, i: nat, k: nat)
    requires s.Linked(up) && Drawn(s, up, rho, i, k)
    ensures forall w :: w in up && s.L(w) <= i ==> w in s.pos && up[w] in s.pos && up[w] in rho && s.L(up[w]) + 1 == s.L(w)
    ensures forall w, x :: w in up && x in up && s.L(w) == i && s.L(x) == i && s.P(w) < s.P(x) ==> rho[up[w]] < rho[up[x]]
  {
    hide Sheet.Median, Sheet.Conflict;
  }

  /** The rightmost column drawn in layer i, if there is one. */
  lemma Rightmost(s: Sheet, up: map<Id, Id>, rho: map<Id, real>, i: nat, k: nat) returns (l: real)
    requires s.Valid() && Drawn(s, up, rho, i, k) && s.In(i, k)
    ensures forall v :: v in rho && s.L(v) == i ==> rho[v] <= l
    ensures k > 0 ==> exists v :: v in rho && s.L(v) == i && rho[v] == l
    ensures k == 0 ==> forall v :: v in rho ==> s.L(v) != i
  {
    hide Sheet.Median, Sheet.Conflict;
    if k > 0 {
      var v := s.layering[i][k - 1];
      assert s.In(i, k - 1);
      l := rho[v];
      forall x | x in rho && s.L(x) == i ensures rho[x] <= l {
        if s.P(x) >= k - 1 {
          assert x == v;
        }
      }
    } else {
      l := 0.0;
    }
  }

  /** A separating column, when no node of layer i from place k up to j is linked. */
  lemma {:induction false} Gap(s: Sheet, up: map<Id, Id>, rho: map<Id, real>, i: nat, k: nat, j: nat) returns (a: real)
    requires s.Valid() && s.Linked(up) && s.In(i, k) && k < j <= |s.layering[i]|
    requires Drawn(s, up, rho, i, k) && Room(s, up, rho, i, k)
    requires forall w :: w in up && s.L(w) == i && k <= s.P(w) ==> s.P(w) >= j
    ensures Separates(s, up, rho, i, k, a)
    decreases |s.layering[i]| - j
  {
    hide Drawn, Sheet.Linked, Room, Separates;
    LinksEarlier(s, up, rho, i, k);
    var l := Rightmost(s, up, rho, i, k);
    if j == |s.layering[i]| {
      a := l + 1.0;
      NoneAfter(s, up, rho, i, k, l);
    } else {
      var x := s.layering[i][j];
      NoneBetween(s, up, i, j, x);
      if x in up {
        a := GapBefore(s, up, rho, i, k, j, x, l);
      } else {
        a := Gap(s, up, rho, i, k, j + 1);
      }
    }
  }

  lemma NoneAfter(s: Sheet, up: map<Id, Id>, rho: map<Id, real>, i: nat, k: nat, l: real)
    requires s.Valid() && s.Linked(up) && i < |s.layering|
    requires forall v :: v in rho && s.L(v) == i ==> rho[v] <= l
    requires forall w :: w in up && s.L(w) == i && k <= s.P(w) ==> s.P(w) >= |s.layering[i]|
    ensures Separates(s, up, rho, i, k, l + 1.0)
  {
    hide Sheet.Median, Sheet.Conflict;
    forall w | w in up && s.L(w) == i ensures s.P(w) < |s.layering[i]| {
      assert w in s.pos && s.In(s.L(w), s.P(w));
    }
  }

  lemma NoneBetween(s: Sheet, up: map<Id, Id>, i: nat, j: nat, x: Id)
    requires s.Valid() && s.Linked(up) && s.In(i, j) && x == s.layering[i][j]
    ensures s.L(x) == i && s.P(x) == j && forall w :: w in up && s.L(w) == i && s.P(w) == j ==> w == x
  {
    hide Sheet.Median, Sheet.Conflict;
  }

  lemma GapBefore(s: Sheet, up: map<Id, Id>, rho: map<Id, real>, i: nat, k: nat, j: nat, x: Id, l: real) returns (a: real)
    requires x in up && s.L(x) == i && s.P(x) == j && up[x] in rho && k < j && Room(s, up, rho, i, k)
    requires forall w :: w in up && s.L(w) == i && k <= s.P(w) ==> s.P(w) >= j
    requires forall w :: w in up && s.L(w) == i && s.P(w) == j ==> w == x
    requires forall w :: w in up && s.L(w) == i && s.P(w) > j ==> up[w] in rho && rho[up[x]] < rho[up[w]]
    requires forall v :: v in rho && s.L(v) == i ==> rho[v] <= l
    requires k > 0 ==> exists v :: v in rho && s.L(v) == i && rho[v] == l
    requires k == 0 ==> forall v :: v in rho ==> s.L(v) != i
    ensures Separates(s, up, rho, i, k, a)
  {
    a := if k > 0 then (l + rho[up[x]]) / 2.0 else rho[up[x]] - 1.0;
  }

  /** The column of v, the node at (i, k). */
  lemma Column(s: Sheet, up: map<Id, Id>, rho: map<Id, real>, i: nat, k: nat, v: Id) returns (a: real)
    requires s.Valid() && s.Linked(up) && s.In(i, k) && v == s.layering[i][k]
    requires Drawn(s, up, rho, i, k) && Room(s, up, rho, i, k)
    ensures v in up ==> up[v] in rho && a == rho[up[v]]
    ensures Separates(s, up, rho, i, k, a)
  {
    hide Drawn, Sheet.Linked;
    LinksEarlier(s, up, rho, i, k);
    NoneBetween(s, up, i, k, v);
    if v in up {
      a := rho[up[v]];
    } else {
      hide Room, Separates;
      a := Gap(s, up, rho, i, k, k + 1);
    }
  }

  lemma DrawnStep(s: Sheet, up: map<Id, Id>, rho: map<Id, real>, i: nat, k: nat, v: Id, a: real)
    requires s.Valid() && s.Linked(up) && s.In(i, k) && v == s.layering[i][k]
    requires Drawn(s, up, rho, i, k) && Separates(s, up, rho, i, k, a)
    requires v in up ==> up[v] in rho && a == rho[up[v]]
    ensures Drawn(s, up, rho[v := a], i, k + 1)
  {
    hide *;
    LinksBehind(s, up, i, k, v);
    NextPlace(s, i, k, v);
    PlaceOf(s, i, k);
    NewColumn(s, up, rho, i, k, v, a);
  }

  lemma NewColumn(s: Sheet, up: map<Id, Id>, rho: map<Id, real>, i: nat, k: nat, v: Id, a: real)
    requires Drawn(s, up, rho, i, k) && Separates(s, up, rho, i, k, a)
    requires v in s.pos && s.L(v) == i && s.P(v) == k && (v in up ==> up[v] in rho && a == rho[up[v]])
    requires forall w :: w in up && s.Before(w, i, k + 1) ==> up[w] != v
    requires forall w :: w in s.pos ==> (s.Before(w, i, k + 1) <==> s.Before(w, i, k) || w == v)
    ensures Drawn(s, up, rho[v := a], i, k + 1)
  {
    hide Sheet.L, Sheet.P;
    assert v !in rho && forall w :: w in rho ==> s.Before(w, i, k);
  }

  lemma LinksBehind(s: Sheet, up: map<Id, Id>, i: nat, k: nat, v: Id)
    requires s.Valid() && s.Linked(up) && s.In(i, k) && v == s.layering[i][k]
    ensures forall w :: w in up && s.Before(w, i, k + 1) ==> up[w] != v
    ensures forall w :: w in up && s.L(w) == i ==> up[w] != v
  {
    hide Sheet.Median, Sheet.Conflict;
  }

  lemma RoomStep(s: Sheet, up: map<Id, Id>, rho: map<Id, real>, i: nat, k: nat, v: Id, a: real)
    requires s.Valid() && s.Linked(up) && s.In(i, k) && v == s.layering[i][k]
    requires Room(s, up, rho, i, k) && Separates(s, up, rho, i, k, a)
    ensures Room(s, up, rho[v := a], i, k + 1)
  {
    LinksBehind(s, up, i, k, v);
    hide Sheet.Median, Sheet.Conflict, Sheet.Valid, Sheet.Linked;
  }

  lemma DrawnTurn(s: Sheet, up: map<Id, Id>, rho: map<Id, real>, i: nat)
    requires s.Valid() && i < |s.layering| && Drawn(s, up, rho, i, |s.layering[i]|)
    ensures Drawn(s, up, rho, i + 1, 0) && Room(s, up, rho, i + 1, 0)
  {
  }

  /** rho puts each block in one column, so that along each layer the columns grow. */
  ghost predicate Columned(s: Sheet, root: map<Id, Id>, rho: map<Id, real>) {
    && rho.Keys == s.pos.Keys <= root.Keys
    && (forall v :: v in s.pos ==> root[v] in s.pos && rho[root[v]] == rho[v])
    && (forall v, w :: v in s.pos && w in s.pos && s.L(v) == s.L(w) && s.P(v) < s.P(w) ==> rho[v] < rho[w])
  }

  /** Blocks never cross: they can be drawn as columns. */
  lemma Columns(s: Sheet, up: map<Id, Id>, root: map<Id, Id>, align: map<Id, Id>) returns (rho: map<Id, real>)
    requires Chained(s, up, root, align)
    ensures Columned(s, root, rho)
  {
    hide *;
    BlocksParts(s, up, root, align);
    rho := map[];
    NoneDrawn(s, up);
    for i := 0 to |s.layering|
      invariant Drawn(s, up, rho, i, 0) && Room(s, up, rho, i, 0)
    {
      for k := 0 to |s.layering[i]|
        invariant Drawn(s, up, rho, i, k) && Room(s, up, rho, i, k)
      {
        InPlace(s, i, k);
        var v := s.layering[i][k];
        var a := Column(s, up, rho, i, k, v);
        DrawnStep(s, up, rho, i, k, v, a);
        RoomStep(s, up, rho, i, k, v, a);
        rho := rho[v := a];
      }
      DrawnTurn(s, up, rho, i);
    }
    AllDrawn(s, up, root, align, rho);
  }

  lemma NoneDrawn(s: Sheet, up: map<Id, Id>)
    ensures Drawn(s, up, map[], 0, 0) && Room(s, up, map[], 0, 0)
  {
  }

  lemma AllDrawn(s: Sheet, up: map<Id, Id>, root: map<Id, Id>, align: map<Id, Id>, rho: map<Id, real>)
    requires Chained(s, up, root, align) && Drawn(s, up, rho, |s.layering|, 0)
    ensures Columned(s, root, rho)
  {
    hide *;
    BlocksParts(s, up, root, align);
    DrawnEnds(s, up, rho);
    forall v | v in s.pos ensures root[v] in s.pos && rho[root[v]] == rho[v] {
      SameColumn(s, up, root, align, rho, v);
    }
    ColumnedMade(s, root, rho);
  }

  lemma ColumnedMade(s: Sheet, root: map<Id, Id>, rho: map<Id, real>)
    requires rho.Keys == s.pos.Keys <= root.Keys
    requires forall v :: v in s.pos ==> root[v] in s.pos && rho[root[v]] == rho[v]
    requires forall v, w :: v in s.pos && w in s.pos && s.L(v) == s.L(w) && s.P(v) < s.P(w) ==> rho[v] < rho[w]
    ensures Columned(s, root, rho)
  {
  }

  lemma DrawnEnds(s: Sheet, up: map<Id, Id>, rho: map<Id, real>)
    requires s.Valid() && Drawn(s, up, rho, |s.layering|, 0)
    ensures rho.Keys == s.pos.Keys
    ensures forall v, w :: v in s.pos && w in s.pos && s.L(v) == s.L(w) && s.P(v) < s.P(w) ==> rho[v] < rho[w]
  {
    forall v | v in s.pos ensures s.Before(v, |s.layering|, 0) {
      LayerBound(s, v);
    }
    hide Sheet.Valid;
  }

  lemma {:induction false} SameColumn(s: Sheet, up: map<Id, Id>, root: map<Id, Id>, align: map<Id, Id>, rho: map<Id, real>, v: Id)
    requires Chained(s, up, root, align) && Drawn(s, up, rho, |s.layering|, 0) && v in s.pos
    ensures v in root && root[v] in s.pos && root[v] in rho && v in rho && rho[root[v]] == rho[v]
    decreases s.L(v)
  {
    hide Sheet.Median, Sheet.Conflict, Sheet.Lowest;
    LayerBound(s, v);
    if v in up {
      SameColumn(s, up, root, align, rho, up[v]);
    }
  }
}
