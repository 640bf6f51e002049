/** From the four candidates to the final coordinates: the candidates are lined up, each node gets the average of the two middle ones of its four
    x coordinates, the rows are stacked, and the whole is moved to the origin. */
module Coordinates {
  import opened Base
  import opened Digraphs
  import opened Positions

  datatype Direction = TB | BT | LR | RL

  /** The configuration, and the sizes of the nodes. */
  datatype Setting = Setting(rankDir: Direction, nodeSep: real, edgeSep: real, universalSep: Option<real>, rankSep: real,
                             nodeWidth: Id -> real, nodeHeight: Id -> real) {
    predicate Sideways() {
      rankDir.LR? || rankDir.RL?
    }

    predicate Backwards() {
      rankDir.BT? || rankDir.RL?
    }

    /** The extent of a node along its row. */
    function Width(u: Id): real {
      if Sideways() then nodeHeight(u) else nodeWidth(u)
    }

    /** The extent of a node across the rows. */
    function Height(u: Id): real {
      if Sideways() then nodeWidth(u) else nodeHeight(u)
    }

    /** The room that a node takes up on either side. */
    function Sep(dummies: set<Id>, u: Id): real {
      if universalSep.Some? then universalSep.value else (Width(u) + if u in dummies then edgeSep else nodeSep) / 2.0
    }

    function Room(dummies: set<Id>): Id -> real {
      u => Sep(dummies, u)
    }

    function Widths(): Id -> real {
      u => Width(u)
    }

    function Heights(): Id -> real {
      u => Height(u)
    }
  }

  function At(xs: map<Id, real>, v: Id): real {
    if v in xs then xs[v] else 0.0
  }

  /** There are rows, and each has a node. */
  ghost predicate Full(g: Rows) {
    |g.rows| > 0 && forall i: nat :: i < |g.rows| ==> g.rows[i] != []
  }

  /** Neighbours keep their order and distance. */
  ghost predicate Spread(g: Rows, sep: Id -> real, xs: map<Id, real>) {
    xs.Keys == g.pos.Keys && forall u, v :: g.Adjacent(u, v) ==> At(xs, v) >= At(xs, u) + sep(u) + sep(v)
  }

  // ---------- lining the candidates up ----------

  function Less(a: real, b: real): real {
    if b < a then b else a
  }

  function Least(q: seq<real>): real
    requires |q| > 0
  {
    if |q| == 1 then q[0] else Less(q[0], Least(q[1..]))
  }

  lemma {:induction false} LeastIs(q: seq<real>)
    requires |q| > 0
    ensures Least(q) in q && forall i :: 0 <= i < |q| ==> Least(q) <= q[i]
  {
    if |q| > 1 {
      LeastIs(q[1..]);
      forall i | 0 <= i < |q| ensures Least(q) <= q[i] {
        assert i > 0 ==> q[i] == q[1..][i - 1];
      }
    }
  }

  function Starts(g: Rows, xs: map<Id, real>): seq<real> {
    seq(|g.rows|, i requires 0 <= i < |g.rows| => if g.rows[i] == [] then 0.0 else At(xs, g.rows[i][0]))
  }

  function Ends(g: Rows, xs: map<Id, real>): seq<real> {
    seq(|g.rows|, i requires 0 <= i < |g.rows| => if g.rows[i] == [] then 0.0 else -At(xs, g.rows[i][|g.rows[i]| - 1]))
  }

  /** The least coordinate, which is that of some first node. */
  function MinCoord(g: Rows, xs: map<Id, real>): real
    requires |g.rows| > 0
  {
    Least(Starts(g, xs))
  }

  /** The greatest coordinate, which is that of some last node. */
  function MaxCoord(g: Rows, xs: map<Id, real>): real
    requires |g.rows| > 0
  {
    -Least(Ends(g, xs))
  }

  function Span(g: Rows, xs: map<Id, real>): real
    requires |g.rows| > 0
  {
    MaxCoord(g, xs) - MinCoord(g, xs)
  }

  function Moved(xs: map<Id, real>, delta: real): map<Id, real> {
    map v | v in xs :: xs[v] + delta
  }

  lemma {:induction false} LeastMoved(q: seq<real>, q': seq<real>, delta: real)
    requires |q| == |q'| > 0 && forall i :: 0 <= i < |q| ==> q'[i] == q[i] + delta
    ensures Least(q') == Least(q) + delta
  {
    if |q| > 1 {
      LeastMoved(q[1..], q'[1..], delta);
    }
  }

  /** Moving a candidate moves both its ends. */
  lemma CoordsMoved(g: Rows, xs: map<Id, real>, delta: real)
    requires g.Valid() && Full(g) && xs.Keys == g.pos.Keys
    ensures MinCoord(g, Moved(xs, delta)) == MinCoord(g, xs) + delta && MaxCoord(g, Moved(xs, delta)) == MaxCoord(g, xs) + delta
  {
    hide *;
    StartsLength(g, xs);
    StartsLength(g, Moved(xs, delta));
    forall i: nat | i < |g.rows|
      ensures Starts(g, Moved(xs, delta))[i] == Starts(g, xs)[i] + delta && Ends(g, Moved(xs, delta))[i] == Ends(g, xs)[i] - delta
    {
      EndsMoved(g, xs, delta, i);
    }
    LeastMoved(Starts(g, xs), Starts(g, Moved(xs, delta)), delta);
    LeastMoved(Ends(g, xs), Ends(g, Moved(xs, delta)), -delta);
    CoordsAre(g, xs);
    CoordsAre(g, Moved(xs, delta));
  }

  lemma CoordsAre(g: Rows, xs: map<Id, real>)
    requires |g.rows| > 0 && |Starts(g, xs)| > 0 && |Ends(g, xs)| > 0
    ensures MinCoord(g, xs) == Least(Starts(g, xs)) && MaxCoord(g, xs) == -Least(Ends(g, xs))
  {
    hide Least, Starts, Ends;
  }

  lemma StartsLength(g: Rows, xs: map<Id, real>)
    requires Full(g)
    ensures |Starts(g, xs)| == |Ends(g, xs)| == |g.rows| > 0
  {
  }

  lemma EndsMoved(g: Rows, xs: map<Id, real>, delta: real, i: nat)
    requires g.Valid() && Full(g) && xs.Keys == g.pos.Keys && i < |g.rows|
    ensures |Starts(g, xs)| == |Ends(g, xs)| == |Starts(g, Moved(xs, delta))| == |Ends(g, Moved(xs, delta))| == |g.rows|
    ensures Starts(g, Moved(xs, delta))[i] == Starts(g, xs)[i] + delta && Ends(g, Moved(xs, delta))[i] == Ends(g, xs)[i] - delta
  {
    assert g.In(i, 0) && g.In(i, |g.rows[i]| - 1);
    hide Rows.Valid;
    assert g.rows[i][0] in xs && g.rows[i][|g.rows[i]| - 1] in xs;
  }

  lemma SpreadMoved(g: Rows, sep: Id -> real, xs: map<Id, real>, delta: real)
    requires Spread(g, sep, xs) && g.Valid()
    ensures Spread(g, sep, Moved(xs, delta))
  {
    hide Rows.Valid;
    forall u, v | g.Adjacent(u, v) ensures At(Moved(xs, delta), v) >= At(Moved(xs, delta), u) + sep(u) + sep(v) {
      AdjacentThere(g, u, v);
      assert At(xs, v) >= At(xs, u) + sep(u) + sep(v);
    }
  }

  lemma AdjacentThere(g: Rows, u: Id, v: Id)
    requires g.Valid() && g.Adjacent(u, v)
    ensures u in g.pos && v in g.pos
  {
  }

  type Candidates = map<(bool, bool), map<Id, real>>

  const ALIGNMENTS: seq<(bool, bool)> := [(false, false), (false, true), (true, false), (true, true)]

  lemma AllAligned()
    ensures |ALIGNMENTS| == 4
  {
  }

  lemma AlignedAt(a: (bool, bool))
    ensures exists i :: 0 <= i < |ALIGNMENTS| && ALIGNMENTS[i] == a
  {
    match a
    case (false, false) => assert ALIGNMENTS[0] == a;
    case (false, true) => assert ALIGNMENTS[1] == a;
    case (true, false) => assert ALIGNMENTS[2] == a;
    case (true, true) => assert ALIGNMENTS[3] == a;
  }

  ghost predicate Complete(g: Rows, xss: Candidates) {
    forall a :: a in xss && xss[a].Keys == g.pos.Keys
  }

  /** No candidate is narrower than best, and none that comes before it is as narrow. */
  ghost predicate Narrowest(g: Rows, xss: Candidates, best: (bool, bool)) {
    && |g.rows| > 0 && best in xss && (forall a :: a in xss ==> Span(g, xss[best]) <= Span(g, xss[a]))
    && exists i :: 0 <= i < |ALIGNMENTS| && ALIGNMENTS[i] == best && FirstNarrow(g, xss, i)
  }

  ghost predicate FirstNarrow(g: Rows, xss: Candidates, i: nat)
    requires |g.rows| > 0 && i < |ALIGNMENTS|
  {
    forall j :: 0 <= j < i ==> ALIGNMENTS[i] in xss && ALIGNMENTS[j] in xss && Span(g, xss[ALIGNMENTS[i]]) < Span(g, xss[ALIGNMENTS[j]])
  }

  /** Candidate a has been moved, so that its left end, or its right end, is where that of the best one was. */
  ghost predicate InLine(g: Rows, xss: Candidates, xss': Candidates, best: (bool, bool), a: (bool, bool)) {
    && |g.rows| > 0 && a in xss && a in xss' && best in xss && (exists delta :: xss'[a] == Moved(xss[a], delta))
    && (if a.1 then MaxCoord(g, xss'[a]) == MaxCoord(g, xss[best]) else MinCoord(g, xss'[a]) == MinCoord(g, xss[best]))
  }

  ghost predicate LinedUp(g: Rows, xss: Candidates, xss': Candidates, best: (bool, bool)) {
    Narrowest(g, xss, best) && xss'.Keys == xss.Keys && forall a :: a in xss ==> InLine(g, xss, xss', best, a)
  }

  method Balance(g: Rows, xss: Candidates) returns (xss': Candidates, ghost best: (bool, bool))
    requires g.Valid() && Full(g) && Complete(g, xss)
    ensures LinedUp(g, xss, xss', best)
  {
    hide *;
    CompleteAll(g, xss);
    AllAligned();
    var smallest := ALIGNMENTS[0];
    ghost var at := 0;
    NoneBefore(g, xss);
    for i := 1 to |ALIGNMENTS|
      invariant smallest in xss && forall j :: 0 <= j < i ==> Span(g, xss[smallest]) <= Span(g, xss[ALIGNMENTS[j]])
      invariant at < i && ALIGNMENTS[at] == smallest && FirstNarrow(g, xss, at)
    {
      var a := ALIGNMENTS[i];
      if Span(g, xss[a]) < Span(g, xss[smallest]) {
        smallest, at := a, i;
        NarrowMade(g, xss, i);
      }
    }
    best := smallest;
    forall a | a in xss ensures Span(g, xss[best]) <= Span(g, xss[a]) {
      AlignedAt(a);
    }
    NarrowestMade(g, xss, best, at);
    xss' := map a | a in xss :: Moved(xss[a], ShiftOf(g, xss, smallest, a));
    forall a | a in xss ensures InLine(g, xss, xss', best, a) {
      ShiftMade(g, xss, xss', best, a);
    }
    LinedUpMade(g, xss, xss', best);
  }

  lemma CompleteAll(g: Rows, xss: Candidates)
    requires Complete(g, xss) && Full(g)
    ensures |g.rows| > 0 && forall a :: a in xss
  {
  }

  lemma NoneBefore(g: Rows, xss: Candidates)
    requires |g.rows| > 0
    ensures |ALIGNMENTS| > 0 && FirstNarrow(g, xss, 0)
  {
  }

  lemma NarrowMade(g: Rows, xss: Candidates, i: nat)
    requires |g.rows| > 0 && i < |ALIGNMENTS| && forall a :: a in xss
    requires forall j :: 0 <= j < i ==> Span(g, xss[ALIGNMENTS[i]]) < Span(g, xss[ALIGNMENTS[j]])
    ensures FirstNarrow(g, xss, i)
  {
    hide Span;
  }

  lemma NarrowestMade(g: Rows, xss: Candidates, best: (bool, bool), i: nat)
    requires |g.rows| > 0 && best in xss && forall a :: a in xss ==> Span(g, xss[best]) <= Span(g, xss[a])
    requires i < |ALIGNMENTS| && ALIGNMENTS[i] == best && FirstNarrow(g, xss, i)
    ensures Narrowest(g, xss, best)
  {
    hide Span, FirstNarrow;
  }

  lemma ShiftMade(g: Rows, xss: Candidates, xss': Candidates, best: (bool, bool), a: (bool, bool))
    requires g.Valid() && Full(g) && Complete(g, xss) && Narrowest(g, xss, best)
    requires a in xss && a in xss' && xss'[a] == Moved(xss[a], ShiftOf(g, xss, best, a))
    ensures InLine(g, xss, xss', best, a)
  {
    hide Rows.Valid, MinCoord, MaxCoord, Moved, Span;
    CoordsMoved(g, xss[a], ShiftOf(g, xss, best, a));
  }

  lemma LinedUpMade(g: Rows, xss: Candidates, xss': Candidates, best: (bool, bool))
    requires Narrowest(g, xss, best) && xss'.Keys == xss.Keys && forall a :: a in xss ==> InLine(g, xss, xss', best, a)
    ensures LinedUp(g, xss, xss', best)
  {
    hide Narrowest, InLine;
  }

  /** How far candidate a is moved: by its left end if it was built from the left, by its right end otherwise. */
  function ShiftOf(g: Rows, xss: Candidates, best: (bool, bool), a: (bool, bool)): real
    requires |g.rows| > 0 && a in xss && best in xss
  {
    if a.1 then MaxCoord(g, xss[best]) - MaxCoord(g, xss[a]) else MinCoord(g, xss[best]) - MinCoord(g, xss[a])
  }

  ghost predicate AllSpread(g: Rows, sep: Id -> real, xss: Candidates) {
    forall a :: a in xss && Spread(g, sep, xss[a])
  }

  /** Lining up keeps all distances. */
  lemma LinedUpSpread(g: Rows, sep: Id -> real, xss: Candidates, xss': Candidates, best: (bool, bool))
    requires g.Valid() && AllSpread(g, sep, xss) && LinedUp(g, xss, xss', best)
    ensures AllSpread(g, sep, xss')
  {
    hide Rows.Valid, MinCoord, MaxCoord, Moved, Spread, Span;
    forall a ensures a in xss' && Spread(g, sep, xss'[a]) {
      assert a in xss && Spread(g, sep, xss[a]) && InLine(g, xss, xss', best, a);
      var delta :| xss'[a] == Moved(xss[a], delta);
      SpreadMoved(g, sep, xss[a], delta);
    }
  }

  // ---------- the two middle ones of four ----------

  function Insert(q: seq<real>, x: real): (r: seq<real>)
    ensures |r| == |q| + 1
  {
    if q == [] || x <= q[0] then [x] + q else [q[0]] + Insert(q[1..], x)
  }

  function Sorted(q: seq<real>): (r: seq<real>)
    ensures |r| == |q|
  {
    if q == [] then [] else Insert(Sorted(q[1..]), q[0])
  }

  ghost predicate Ascending(q: seq<real>) {
    forall i, j :: 0 <= i < j < |q| ==> q[i] <= q[j]
  }

  lemma {:induction false} InsertedHolds(q: seq<real>, x: real)
    ensures multiset(Insert(q, x)) == multiset(q) + multiset{x}
    ensures forall y :: y in Insert(q, x) ==> y == x || y in q
  {
    if !(q == [] || x <= q[0]) {
      InsertedHolds(q[1..], x);
      assert q == [q[0]] + q[1..];
    }
  }

  lemma {:induction false} Inserted(q: seq<real>, x: real)
    requires Ascending(q)
    ensures Ascending(Insert(q, x))
  {
    hide Ascending;
    if q == [] || x <= q[0] {
      First(q, x) by {
        if q != [] {
          LeastFirst(q);
        }
      }
    } else {
      LeastFirst(q);
      Inserted(q[1..], x);
      InsertedHolds(q[1..], x);
      forall y | y in Insert(q[1..], x) ensures q[0] <= y {
        assert y == x || y in q[1..];
      }
      First(Insert(q[1..], x), q[0]);
    }
  }

  lemma LeastFirst(q: seq<real>)
    requires q != [] && Ascending(q)
    ensures Ascending(q[1..]) && (forall y :: y in q ==> q[0] <= y) && forall y :: y in q[1..] ==> q[0] <= y
  {
  }

  lemma First(q: seq<real>, x: real)
    requires Ascending(q) && forall y :: y in q ==> x <= y
    ensures Ascending([x] + q)
  {
    forall i, j | 0 <= i < j < |[x] + q| ensures ([x] + q)[i] <= ([x] + q)[j] {
      assert ([x] + q)[j] == q[j - 1] && q[j - 1] in q;
    }
  }

  /** Sorting puts the entries in ascending order. */
  lemma {:induction false} SortedIs(q: seq<real>)
    ensures Ascending(Sorted(q)) && multiset(Sorted(q)) == multiset(q)
  {
    if q != [] {
      SortedIs(q[1..]);
      Inserted(Sorted(q[1..]), q[0]);
      InsertedHolds(Sorted(q[1..]), q[0]);
      assert q == [q[0]] + q[1..];
    }
  }

  /** Entry by entry, q' is at least delta above q. */
  ghost predicate Above(q: seq<real>, q': seq<real>, delta: real) {
    |q'| == |q| && forall i :: 0 <= i < |q| ==> q[i] + delta <= q'[i]
  }

  lemma {:induction false} InsertAbove(q: seq<real>, q': seq<real>, delta: real, x: real, x': real)
    requires Ascending(q) && Ascending(q') && Above(q, q', delta) && x + delta <= x'
    ensures Above(Insert(q, x), Insert(q', x'), delta)
    decreases |q|
  {
    hide Ascending;
    AboveParts(q, q', delta);
    if q == [] {
      AboveCons([], [], delta, x, x');
    } else {
      LeastFirst(q);
      LeastFirst(q');
      hide *;
      InsertCases(q, x);
      InsertCases(q', x');
      if q[0] < x && q'[0] < x' {
        InsertAbove(q[1..], q'[1..], delta, x, x');
        AboveCons(Insert(q[1..], x), Insert(q'[1..], x'), delta, q[0], q'[0]);
      } else if q[0] < x {
        InsertAbove(q[1..], q'[1..], delta, x, q'[0]);
        InsertLeast(q'[1..], q'[0]);
        AboveCons(Insert(q[1..], x), Insert(q'[1..], q'[0]), delta, q[0], x');
      } else if q'[0] < x' {
        InsertAbove(q[1..], q'[1..], delta, q[0], x');
        InsertLeast(q[1..], q[0]);
        AboveCons(Insert(q[1..], q[0]), Insert(q'[1..], x'), delta, x, q'[0]);
      } else {
        AboveCons(q, q', delta, x, x');
      }
    }
  }

  lemma InsertCases(q: seq<real>, x: real)
    requires q != []
    ensures Insert(q, x) == if x <= q[0] then [x] + q else [q[0]] + Insert(q[1..], x)
    ensures q == [q[0]] + q[1..]
  {
  }

  lemma AboveParts(q: seq<real>, q': seq<real>, delta: real)
    requires Above(q, q', delta)
    ensures |q'| == |q| && (q != [] ==> q[0] + delta <= q'[0] && Above(q[1..], q'[1..], delta))
  {
  }

  lemma AboveCons(q: seq<real>, q': seq<real>, delta: real, x: real, x': real)
    requires Above(q, q', delta) && x + delta <= x'
    ensures Above([x] + q, [x'] + q', delta)
  {
  }

  lemma InsertLeast(q: seq<real>, x: real)
    requires forall y :: y in q ==> x <= y
    ensures Insert(q, x) == [x] + q
  {
    assert q != [] ==> q[0] in q;
  }

  /** Sorting keeps what lies above what. */
  lemma {:induction false} SortedAbove(q: seq<real>, q': seq<real>, delta: real)
    requires Above(q, q', delta)
    ensures Above(Sorted(q), Sorted(q'), delta)
  {
    if q != [] {
      SortedAbove(q[1..], q'[1..], delta);
      SortedIs(q[1..]);
      SortedIs(q'[1..]);
      InsertAbove(Sorted(q[1..]), Sorted(q'[1..]), delta, q[0], q'[0]);
    }
  }

  function Four(xss: Candidates, v: Id): seq<real>
    requires forall a :: a in xss
  {
    [At(xss[(false, false)], v), At(xss[(false, true)], v), At(xss[(true, false)], v), At(xss[(true, true)], v)]
  }

  /** The average of the two middle ones of the four coordinates of v. */
  function Middle(xss: Candidates, v: Id): real
    requires forall a :: a in xss
  {
    var q := Sorted(Four(xss, v));
    (q[1] + q[2]) / 2.0
  }

  /** x is the average of the two middle ones of the four coordinates of v, wherever these come from. */
  ghost predicate InMiddle(xss: Candidates, v: Id, x: real)
    requires forall a :: a in xss
  {
    && (exists a, b, c, d :: FourAre(xss, v, a, b, c, d) && a <= b <= c <= d)
    && forall a, b, c, d :: FourAre(xss, v, a, b, c, d) && a <= b <= c <= d ==> x == (b + c) / 2.0
  }

  /** a, b, c and d are the four coordinates of v, in any order. */
  ghost predicate FourAre(xss: Candidates, v: Id, a: real, b: real, c: real, d: real)
    requires forall a :: a in xss
  {
    multiset{a, b, c, d} == multiset{At(xss[(false, false)], v), At(xss[(false, true)], v), At(xss[(true, false)], v), At(xss[(true, true)], v)}
  }

  /** There is one way only to put numbers in ascending order. */
  lemma {:induction false} AscendingOnce(p: seq<real>, q: seq<real>)
    requires Ascending(p) && Ascending(q) && multiset(p) == multiset(q)
    ensures p == q
  {
    hide Ascending;
    SameSize(p, q);
    if p != [] {
      LeastFirst(p);
      LeastFirst(q);
      FirstIn(p, q);
      FirstIn(q, p);
      TailsAgree(p, q);
      AscendingOnce(p[1..], q[1..]);
      assert p == [p[0]] + p[1..] && q == [q[0]] + q[1..];
    }
  }

  lemma SameSize(p: seq<real>, q: seq<real>)
    requires multiset(p) == multiset(q)
    ensures |p| == |q|
  {
    assert |multiset(p)| == |p| && |multiset(q)| == |q|;
  }

  lemma FirstIn(p: seq<real>, q: seq<real>)
    requires p != [] && multiset(p) == multiset(q)
    ensures p[0] in q
  {
    assert p[0] in multiset(q);
  }

  lemma TailsAgree(p: seq<real>, q: seq<real>)
    requires p != [] && q != [] && p[0] == q[0] && multiset(p) == multiset(q)
    ensures multiset(p[1..]) == multiset(q[1..])
  {
    assert p == [p[0]] + p[1..] && q == [q[0]] + q[1..];
    assert multiset(p[1..]) == multiset(p) - multiset{p[0]} && multiset(q[1..]) == multiset(q) - multiset{q[0]};
  }

  lemma FourAscending(a: real, b: real, c: real, d: real)
    requires a <= b <= c <= d
    ensures Ascending([a, b, c, d])
  {
  }

  lemma FourBag(xss: Candidates, v: Id, a: real, b: real, c: real, d: real)
    requires (forall a :: a in xss) && FourAre(xss, v, a, b, c, d)
    ensures multiset([a, b, c, d]) == multiset(Four(xss, v))
  {
    hide At;
    var q := Four(xss, v);
    assert multiset(q) == multiset{q[0], q[1], q[2], q[3]};
    assert multiset([a, b, c, d]) == multiset{a, b, c, d};
  }

  lemma FourSorted(xss: Candidates, v: Id, a: real, b: real, c: real, d: real)
    requires (forall a :: a in xss) && FourAre(xss, v, a, b, c, d) && a <= b <= c <= d
    ensures Sorted(Four(xss, v)) == [a, b, c, d]
  {
    hide *;
    SortedIs(Four(xss, v));
    FourAscending(a, b, c, d);
    FourBag(xss, v, a, b, c, d);
    AscendingOnce(Sorted(Four(xss, v)), [a, b, c, d]);
  }

  /** The four coordinates can be put in ascending order. */
  lemma FourThere(xss: Candidates, v: Id) returns (a: real, b: real, c: real, d: real)
    requires forall a :: a in xss
    ensures FourAre(xss, v, a, b, c, d) && a <= b <= c <= d
  {
    hide Sorted;
    var q := Four(xss, v);
    SortedIs(q);
    var r := Sorted(q);
    a, b, c, d := r[0], r[1], r[2], r[3];
    assert r == [a, b, c, d];
    assert multiset(r) == multiset{a, b, c, d};
  }

  lemma MiddleIs(xss: Candidates, v: Id)
    requires forall a :: a in xss
    ensures InMiddle(xss, v, Middle(xss, v))
  {
    hide Sorted, FourAre, Four;
    var p, q, r, t := FourThere(xss, v);
    forall a, b, c, d | FourAre(xss, v, a, b, c, d) && a <= b <= c <= d ensures Middle(xss, v) == (b + c) / 2.0 {
      FourSorted(xss, v, a, b, c, d);
      assert [a, b, c, d][1] == b && [a, b, c, d][2] == c;
    }
  }

  /** Two nodes that are delta apart in all four candidates are so in the middle. */
  lemma MiddleApart(xss: Candidates, u: Id, v: Id, delta: real)
    requires (forall a :: a in xss) && forall a :: At(xss[a], u) + delta <= At(xss[a], v)
    ensures Middle(xss, u) + delta <= Middle(xss, v)
  {
    hide Sorted;
    SortedAbove(Four(xss, u), Four(xss, v), delta);
  }

  function Middles(g: Rows, xss: Candidates): map<Id, real>
    requires forall a :: a in xss
  {
    map v | v in g.pos :: Middle(xss, v)
  }

  /** The middle coordinates keep the order and distance of neighbours, since all four candidates do. */
  lemma MiddlesSpread(g: Rows, sep: Id -> real, xss: Candidates)
    requires g.Valid() && AllSpread(g, sep, xss)
    ensures Spread(g, sep, Middles(g, xss))
  {
    hide Rows.Valid, Middle;
    forall u, v | g.Adjacent(u, v) ensures At(Middles(g, xss), v) >= At(Middles(g, xss), u) + sep(u) + sep(v) {
      AdjacentThere(g, u, v);
      forall a ensures At(xss[a], u) + (sep(u) + sep(v)) <= At(xss[a], v) {
        assert a in xss && Spread(g, sep, xss[a]);
      }
      MiddleApart(xss, u, v, sep(u) + sep(v));
    }
  }

  // ---------- stacking the rows ----------

  function RowHeights(g: Rows, setting: Setting, i: nat): seq<real> {
    if i < |g.rows| then seq(|g.rows[i]|, k requires 0 <= k < |g.rows[i]| => -setting.Height(g.rows[i][k])) else []
  }

  /** The greatest height in a row. */
  function RowHeight(g: Rows, setting: Setting, i: nat): real {
    if RowHeights(g, setting, i) == [] then 0.0 else -Least(RowHeights(g, setting, i))
  }

  lemma RowHeightIs(g: Rows, setting: Setting, v: Id)
    requires g.Valid() && v in g.pos
    ensures setting.Height(v) <= RowHeight(g, setting, g.L(v))
  {
    assert g.In(g.L(v), g.P(v)) && g.rows[g.L(v)][g.P(v)] == v;
    var q := RowHeights(g, setting, g.L(v));
    LeastIs(q);
    assert q[g.P(v)] == -setting.Height(v);
  }

  /** Where the middle of row i is, from the middle of the row before. */
  ghost function RowMiddle(g: Rows, setting: Setting, i: nat): real {
    if i == 0 then RowHeight(g, setting, 0) / 2.0
    else RowMiddle(g, setting, i - 1) + RowHeight(g, setting, i - 1) / 2.0 + setting.rankSep + RowHeight(g, setting, i) / 2.0
  }

  /** The rows before row i, and the first k nodes of row i, have their coordinate. */
  ghost predicate Stacking(g: Rows, setting: Setting, ys: map<Id, real>, i: nat, k: nat) {
    && (forall v :: v in ys <==> v in g.pos && (g.L(v) < i || (g.L(v) == i && g.P(v) < k)))
    && (forall v :: v in ys ==> ys[v] == if setting.Backwards() then -RowMiddle(g, setting, g.L(v)) else RowMiddle(g, setting, g.L(v)))
  }

  ghost predicate Stacked(g: Rows, setting: Setting, ys: map<Id, real>) {
    ys.Keys == g.pos.Keys && forall v :: v in ys ==> ys[v] == if setting.Backwards() then -RowMiddle(g, setting, g.L(v)) else RowMiddle(g, setting, g.L(v))
  }

  method Stack(g: Rows, setting: Setting) returns (ys: map<Id, real>)
    requires g.Valid()
    ensures Stacked(g, setting, ys)
  {
    hide *;
    ys := map[];
    var y := 0.0;
    NothingStacked(g, setting);
    for i := 0 to |g.rows|
      invariant Stacking(g, setting, ys, i, 0) && StackHeight(g, setting, i, y)
    {
      var maxHeight := RowHeight(g, setting, i);
      StackRow(g, setting, i, y);
      y := y + maxHeight / 2.0;
      for k := 0 to |g.rows[i]|
        invariant Stacking(g, setting, ys, i, k) && y == RowMiddle(g, setting, i)
      {
        StackNode(g, setting, ys, i, k);
        ys := ys[g.rows[i][k] := if setting.Backwards() then -y else y];
      }
      StackTurn(g, setting, ys, i);
      y := y + maxHeight / 2.0 + setting.rankSep;
      StackNext(g, setting, i, y);
    }
    StackEnds(g, setting, ys);
  }

  /** y is where row i begins. */
  ghost predicate StackHeight(g: Rows, setting: Setting, i: nat, y: real) {
    y + RowHeight(g, setting, i) / 2.0 == RowMiddle(g, setting, i)
  }

  lemma NothingStacked(g: Rows, setting: Setting)
    ensures Stacking(g, setting, map[], 0, 0) && StackHeight(g, setting, 0, 0.0)
  {
    hide RowHeight;
  }

  lemma StackRow(g: Rows, setting: Setting, i: nat, y: real)
    requires StackHeight(g, setting, i, y)
    ensures y + RowHeight(g, setting, i) / 2.0 == RowMiddle(g, setting, i)
  {
  }

  lemma StackNext(g: Rows, setting: Setting, i: nat, y: real)
    requires y == RowMiddle(g, setting, i) + RowHeight(g, setting, i) / 2.0 + setting.rankSep
    ensures StackHeight(g, setting, i + 1, y)
  {
    hide RowHeight;
  }

  lemma StackNode(g: Rows, setting: Setting, ys: map<Id, real>, i: nat, k: nat)
    requires g.Valid() && i < |g.rows| && k < |g.rows[i]| && Stacking(g, setting, ys, i, k)
    ensures var y := RowMiddle(g, setting, i);
      Stacking(g, setting, ys[g.rows[i][k] := if setting.Backwards() then -y else y], i, k + 1)
  {
    hide *;
    PlaceIn(g, i, k);
    forall v | v in g.pos && g.L(v) == i && g.P(v) == k ensures v == g.rows[i][k] {
      SameSpot(g, v, g.rows[i][k]);
    }
    StackOne(g, setting, ys, i, k, g.rows[i][k]);
  }

  lemma StackOne(g: Rows, setting: Setting, ys: map<Id, real>, i: nat, k: nat, x: Id)
    requires Stacking(g, setting, ys, i, k) && x in g.pos && g.L(x) == i && g.P(x) == k
    requires forall v :: v in g.pos && g.L(v) == i && g.P(v) == k ==> v == x
    ensures var y := RowMiddle(g, setting, i); Stacking(g, setting, ys[x := if setting.Backwards() then -y else y], i, k + 1)
  {
    hide RowMiddle, Rows.L, Rows.P, Setting.Backwards;
  }

  lemma StackTurn(g: Rows, setting: Setting, ys: map<Id, real>, i: nat)
    requires g.Valid() && i < |g.rows| && Stacking(g, setting, ys, i, |g.rows[i]|)
    ensures Stacking(g, setting, ys, i + 1, 0)
  {
    hide *;
    forall v | v in g.pos ensures (g.L(v) < i || (g.L(v) == i && g.P(v) < |g.rows[i]|)) <==> g.L(v) < i + 1 {
      RowThere(g, v);
    }
    StackingTurn(g, setting, ys, i, |g.rows[i]|, i + 1);
  }

  lemma StackingTurn(g: Rows, setting: Setting, ys: map<Id, real>, i: nat, k: nat, i': nat)
    requires Stacking(g, setting, ys, i, k) && forall v :: v in g.pos ==> ((g.L(v) < i || (g.L(v) == i && g.P(v) < k)) <==> g.L(v) < i')
    ensures Stacking(g, setting, ys, i', 0)
  {
    hide RowMiddle, Rows.L, Rows.P, Setting.Backwards;
  }

  lemma StackEnds(g: Rows, setting: Setting, ys: map<Id, real>)
    requires g.Valid() && Stacking(g, setting, ys, |g.rows|, 0)
    ensures Stacked(g, setting, ys)
  {
    hide RowMiddle, Rows.L, Rows.P, Setting.Backwards, Rows.Valid;
    forall v | v in g.pos ensures g.L(v) < |g.rows| {
      RowThere(g, v);
    }
  }

  // ---------- the origin ----------

  /** The whole has been moved so that the first edge of a node of this extent is at zero. */
  ghost predicate FromZero(xs: map<Id, real>, xs': map<Id, real>, extent: Id -> real) {
    && (exists delta :: xs' == Moved(xs, delta))
    && (forall v :: v in xs' ==> xs'[v] - extent(v) / 2.0 >= 0.0)
    && (xs' == map[] || exists v :: v in xs' && xs'[v] - extent(v) / 2.0 == 0.0)
  }

  method ToZero(xs: map<Id, real>, extent: Id -> real) returns (xs': map<Id, real>)
    ensures FromZero(xs, xs', extent)
  {
    if xs == map[] {
      NothingMoved();
      return xs;
    }
    var us := Listing(xs.Keys);
    UptoEnds(us, xs.Keys);
    var first: Id :| first in xs;
    var least := xs[first] - extent(first) / 2.0;
    for i := 0 to |us|
      invariant first in xs && least == xs[first] - extent(first) / 2.0
      invariant forall v :: v in Upto(us, i) ==> v in xs && least <= xs[v] - extent(v) / 2.0
    {
      UptoStep(us, xs.Keys, i);
      if xs[us[i]] - extent(us[i]) / 2.0 < least {
        first := us[i];
        least := xs[first] - extent(first) / 2.0;
      }
    }
    xs' := Moved(xs, -least);
    ZeroMade(xs, first, least, extent);
  }

  lemma NothingMoved()
    ensures Moved(map[], 0.0) == map[]
  {
  }

  lemma ZeroMade(xs: map<Id, real>, first: Id, least: real, extent: Id -> real)
    requires first in xs && least == xs[first] - extent(first) / 2.0 && forall v :: v in xs ==> least <= xs[v] - extent(v) / 2.0
    ensures FromZero(xs, Moved(xs, -least), extent)
  {
    var xs' := Moved(xs, -least);
    assert first in xs' && xs'[first] - extent(first) / 2.0 == 0.0;
  }

  // ---------- the final coordinates ----------

  datatype Point = Point(x: real, y: real) {
    function Along(sideways: bool): real {
      if sideways then y else x
    }

    function Across(sideways: bool): real {
      if sideways then x else y
    }
  }

  function AlongOf(points: map<Id, Point>, sideways: bool): map<Id, real> {
    map v | v in points :: points[v].Along(sideways)
  }

  function AcrossOf(points: map<Id, Point>, sideways: bool): map<Id, real> {
    map v | v in points :: points[v].Across(sideways)
  }

  /** With the rank direction sideways, x and y change places. */
  function PointsOf(xs: map<Id, real>, ys: map<Id, real>, sideways: bool): map<Id, Point> {
    map v | v in xs :: if sideways then Point(At(ys, v), xs[v]) else Point(xs[v], At(ys, v))
  }

  lemma PointsMade(xs: map<Id, real>, ys: map<Id, real>, sideways: bool)
    requires xs.Keys == ys.Keys
    ensures AlongOf(PointsOf(xs, ys, sideways), sideways) == xs && AcrossOf(PointsOf(xs, ys, sideways), sideways) == ys
    ensures PointsOf(xs, ys, sideways).Keys == xs.Keys
  {
  }

  /** In their rows, the nodes keep their order and distances. */
  ghost predicate InRows(g: Rows, setting: Setting, dummies: set<Id>, points: map<Id, Point>) {
    points.Keys == g.pos.Keys && Spread(g, setting.Room(dummies), AlongOf(points, setting.Sideways()))
  }

  /** The rows are stacked, and the whole begins at the origin in both directions. */
  ghost predicate Upright(g: Rows, setting: Setting, points: map<Id, Point>) {
    && (exists xs :: FromZero(xs, AlongOf(points, setting.Sideways()), setting.Widths()))
    && exists ys :: Stacked(g, setting, ys) && FromZero(ys, AcrossOf(points, setting.Sideways()), setting.Heights())
  }

  /** Every node stands at the average of its two middle coordinates in the candidates, after these have been lined up, but for a distance
      that is the same for all nodes. */
  ghost predicate Averaged(g: Rows, setting: Setting, xss: Candidates, points: map<Id, Point>) {
    exists xss', best, delta ::
      LinedUp(g, xss, xss', best) && (forall a :: a in xss') && AllInMiddle(xss', delta, AlongOf(points, setting.Sideways()))
  }

  ghost predicate AllInMiddle(xss: Candidates, delta: real, xs: map<Id, real>)
    requires forall a :: a in xss
  {
    forall v :: v in xs ==> InMiddle(xss, v, xs[v] - delta)
  }

  lemma ZeroShift(xs: map<Id, real>, xs': map<Id, real>, extent: Id -> real) returns (delta: real)
    requires FromZero(xs, xs', extent)
    ensures xs' == Moved(xs, delta)
  {
    delta :| xs' == Moved(xs, delta);
  }

  lemma MiddleMoved(g: Rows, xss: Candidates, xs: map<Id, real>, delta: real, v: Id)
    requires (forall a :: a in xss) && xs == Moved(Middles(g, xss), delta) && v in xs
    ensures xs[v] - delta == Middle(xss, v)
  {
    hide Middle;
  }

  lemma MiddlesMoved(g: Rows, xss: Candidates, xs: map<Id, real>, extent: Id -> real) returns (delta: real)
    requires (forall a :: a in xss) && FromZero(Middles(g, xss), xs, extent)
    ensures AllInMiddle(xss, delta, xs)
  {
    hide InMiddle, Middle, Middles, Moved;
    delta := ZeroShift(Middles(g, xss), xs, extent);
    forall v | v in xs ensures InMiddle(xss, v, xs[v] - delta) {
      MiddleMoved(g, xss, xs, delta, v);
      MiddleIs(xss, v);
    }
  }

  ghost predicate Finished(g: Rows, setting: Setting, dummies: set<Id>, xss: Candidates, points: map<Id, Point>) {
    InRows(g, setting, dummies, points) && Upright(g, setting, points) && Averaged(g, setting, xss, points)
  }

  /** From the candidates to the final coordinates. */
  method Finish(g: Rows, setting: Setting, dummies: set<Id>, xss: Candidates) returns (points: map<Id, Point>)
    requires g.Valid() && Full(g) && AllSpread(g, setting.Room(dummies), xss)
    ensures Finished(g, setting, dummies, xss, points)
  {
    hide *;
    ghost var sep := setting.Room(dummies);
    SpreadComplete(g, sep, xss);
    var lined;
    ghost var best;
    lined, best := Balance(g, xss);
    LinedUpSpread(g, sep, xss, lined, best);
    SpreadComplete(g, sep, lined);
    MiddlesSpread(g, sep, lined);
    var xs0 := Middles(g, lined);
    var ys0 := Stack(g, setting);
    var xs := ToZero(xs0, setting.Widths());
    var ys := ToZero(ys0, setting.Heights());
    FromZeroKeys(xs0, xs, setting.Widths());
    FromZeroKeys(ys0, ys, setting.Heights());
    SpreadKeys(g, sep, xs0);
    StackedKeys(g, setting, ys0);
    ZeroSpread(g, sep, xs0, xs, setting.Widths());
    ghost var delta := MiddlesMoved(g, lined, xs, setting.Widths());
    points := PointsOf(xs, ys, setting.Sideways());
    PointsMade(xs, ys, setting.Sideways());
    FinishedMade(g, setting, dummies, xss, lined, best, delta, xs0, xs, ys0, ys, points);
  }

  lemma SpreadComplete(g: Rows, sep: Id -> real, xss: Candidates)
    requires AllSpread(g, sep, xss)
    ensures Complete(g, xss) && forall a :: a in xss
  {
    hide Rows.Adjacent;
  }

  lemma SpreadKeys(g: Rows, sep: Id -> real, xs: map<Id, real>)
    requires Spread(g, sep, xs)
    ensures xs.Keys == g.pos.Keys
  {
    hide Rows.Adjacent;
  }

  lemma StackedKeys(g: Rows, setting: Setting, ys: map<Id, real>)
    requires Stacked(g, setting, ys)
    ensures ys.Keys == g.pos.Keys
  {
    hide RowMiddle;
  }

  lemma FromZeroKeys(xs: map<Id, real>, xs': map<Id, real>, extent: Id -> real)
    requires FromZero(xs, xs', extent)
    ensures xs'.Keys == xs.Keys
  {
  }

  lemma ZeroSpread(g: Rows, sep: Id -> real, xs: map<Id, real>, xs': map<Id, real>, extent: Id -> real)
    requires g.Valid() && Spread(g, sep, xs) && FromZero(xs, xs', extent)
    ensures Spread(g, sep, xs')
  {
    hide Spread, Moved, Rows.Valid;
    var delta :| xs' == Moved(xs, delta);
    SpreadMoved(g, sep, xs, delta);
  }

  lemma FinishedMade(g: Rows, setting: Setting, dummies: set<Id>, xss: Candidates, lined: Candidates, best: (bool, bool), delta: real,
                     xs0: map<Id, real>, xs: map<Id, real>, ys0: map<Id, real>, ys: map<Id, real>, points: map<Id, Point>)
    requires LinedUp(g, xss, lined, best) && (forall a :: a in lined) && AllInMiddle(lined, delta, xs) && Stacked(g, setting, ys0)
    requires FromZero(xs0, xs, setting.Widths()) && FromZero(ys0, ys, setting.Heights()) && Spread(g, setting.Room(dummies), xs)
    requires xs == AlongOf(points, setting.Sideways()) && ys == AcrossOf(points, setting.Sideways()) && points.Keys == g.pos.Keys
    ensures Finished(g, setting, dummies, xss, points)
  {
    hide LinedUp, AllInMiddle, Stacked, FromZero, Spread, AlongOf, AcrossOf;
  }

  // ---------- where the nodes are ----------

  /** No node of row i is taller than w, across the rows. */
  ghost predicate Tallest(g: Rows, setting: Setting, i: nat, w: Id) {
    && w in g.pos && g.L(w) == i
    && forall v :: v in g.pos && g.L(v) == i ==>
        if setting.rankDir == LR || setting.rankDir == RL then setting.nodeWidth(v) <= setting.nodeWidth(w)
        else setting.nodeHeight(v) <= setting.nodeHeight(w)
  }

  lemma TallestIs(g: Rows, setting: Setting, i: nat, w: Id)
    requires g.Valid() && Tallest(g, setting, i, w)
    ensures RowHeight(g, setting, i) == if setting.rankDir == LR || setting.rankDir == RL then setting.nodeWidth(w) else setting.nodeHeight(w)
  {
    hide Rows.Valid, Rows.L, Rows.P;
    RowHeightIs(g, setting, w);
    RowThere(g, w);
    var q := RowHeights(g, setting, i);
    LeastIs(q);
    var k :| 0 <= k < |q| && q[k] == Least(q);
    PlaceIn(g, i, k);
    assert g.rows[i][k] in g.pos;
  }

  /** The nodes of a row are on one line, and the next row is on the side that the rank direction says: downwards, upwards, to the right or to the
      left, at the distance rankSep from one tallest node to the other. */
  lemma RowsApart(g: Rows, setting: Setting, dummies: set<Id>, xss: Candidates, points: map<Id, Point>, u: Id, v: Id, tu: Id, tv: Id)
    requires g.Valid() && Finished(g, setting, dummies, xss, points) && u in g.pos && v in g.pos && g.L(u) <= g.L(v) <= g.L(u) + 1
    requires Tallest(g, setting, g.L(u), tu) && Tallest(g, setting, g.L(v), tv)
    ensures u in points && v in points
    ensures var d, x, y := setting.rankSep, points[v].x - points[u].x, points[v].y - points[u].y;
      var w, h := (setting.nodeWidth(tu) + setting.nodeWidth(tv)) / 2.0, (setting.nodeHeight(tu) + setting.nodeHeight(tv)) / 2.0;
      match setting.rankDir
      case TB => y == if g.L(u) == g.L(v) then 0.0 else h + d
      case BT => y == if g.L(u) == g.L(v) then 0.0 else -h - d
      case LR => x == if g.L(u) == g.L(v) then 0.0 else w + d
      case RL => x == if g.L(u) == g.L(v) then 0.0 else -w - d
  {
    hide *;
    FinishedParts(g, setting, dummies, xss, points);
    var ys := UprightStack(g, setting, points);
    StackedAt(g, setting, ys, AcrossOf(points, setting.Sideways()), u, v);
    SpotOf(points, setting.Sideways(), u);
    SpotOf(points, setting.Sideways(), v);
    TallestIs(g, setting, g.L(u), tu);
    TallestIs(g, setting, g.L(v), tv);
    if g.L(v) == g.L(u) + 1 {
      NextMiddle(g, setting, g.L(u));
    }
    DirectionIs(setting);
  }

  lemma NextMiddle(g: Rows, setting: Setting, i: nat)
    ensures RowMiddle(g, setting, i + 1) - RowMiddle(g, setting, i) == RowHeight(g, setting, i) / 2.0 + setting.rankSep + RowHeight(g, setting, i + 1) / 2.0
  {
    hide RowHeight;
  }

  lemma DirectionIs(setting: Setting)
    ensures setting.Sideways() == (setting.rankDir == LR || setting.rankDir == RL)
    ensures setting.Backwards() == (setting.rankDir == BT || setting.rankDir == RL)
  {
  }

  /** How far apart neighbours are at least: twice the universal separation, if there is one; otherwise half their widths, or half their heights if
      the rank direction is sideways, and half the distances asked for around edges for a dummy and around nodes for another. */
  ghost function LeastGap(setting: Setting, dummies: set<Id>, u: Id, v: Id): real {
    match setting.universalSep
    case Some(s) => 2.0 * s
    case None =>
      (match setting.rankDir
       case TB => (setting.nodeWidth(u) + setting.nodeWidth(v)) / 2.0
       case BT => (setting.nodeWidth(u) + setting.nodeWidth(v)) / 2.0
       case LR => (setting.nodeHeight(u) + setting.nodeHeight(v)) / 2.0
       case RL => (setting.nodeHeight(u) + setting.nodeHeight(v)) / 2.0)
      + (if u in dummies && v in dummies then setting.edgeSep
         else if u !in dummies && v !in dummies then setting.nodeSep
         else (setting.edgeSep + setting.nodeSep) / 2.0)
  }

  /** The room that is asked for in the candidates is that gap, and the neighbours in a row keep it. */
  lemma NeighboursApart(g: Rows, setting: Setting, dummies: set<Id>, xss: Candidates, points: map<Id, Point>, u: Id, v: Id)
    requires g.Valid() && Finished(g, setting, dummies, xss, points) && g.Adjacent(u, v)
    ensures u in points && v in points
    ensures setting.Room(dummies)(u) + setting.Room(dummies)(v) == LeastGap(setting, dummies, u, v)
    ensures (if setting.rankDir == LR || setting.rankDir == RL then points[v].y - points[u].y else points[v].x - points[u].x)
            >= LeastGap(setting, dummies, u, v)
  {
    hide *;
    FinishedParts(g, setting, dummies, xss, points);
    InRowsParts(g, setting, dummies, points);
    AdjacentThere(g, u, v);
    SpreadAt(g, setting.Room(dummies), AlongOf(points, setting.Sideways()), u, v);
    SpotOf(points, setting.Sideways(), u);
    SpotOf(points, setting.Sideways(), v);
    DirectionIs(setting);
    RoomIs(setting, dummies, u, v);
  }

  lemma SpreadAt(g: Rows, sep: Id -> real, xs: map<Id, real>, u: Id, v: Id)
    requires Spread(g, sep, xs) && g.Adjacent(u, v)
    ensures At(xs, v) >= At(xs, u) + sep(u) + sep(v)
  {
    hide At, Rows.Adjacent;
  }

  lemma RoomIs(setting: Setting, dummies: set<Id>, u: Id, v: Id)
    ensures setting.Room(dummies)(u) + setting.Room(dummies)(v) == LeastGap(setting, dummies, u, v)
  {
  }

  /** The layout begins at the origin: no box reaches to the left of it or above it, and one touches it on either side. */
  lemma AtOrigin(g: Rows, setting: Setting, dummies: set<Id>, xss: Candidates, points: map<Id, Point>)
    requires Finished(g, setting, dummies, xss, points)
    ensures forall v :: v in points ==> points[v].x - setting.nodeWidth(v) / 2.0 >= 0.0 && points[v].y - setting.nodeHeight(v) / 2.0 >= 0.0
    ensures points != map[] ==> exists v :: v in points && points[v].x - setting.nodeWidth(v) / 2.0 == 0.0
    ensures points != map[] ==> exists v :: v in points && points[v].y - setting.nodeHeight(v) / 2.0 == 0.0
  {
    hide *;
    FinishedParts(g, setting, dummies, xss, points);
    var ys := UprightStack(g, setting, points);
    var xs := UprightFrom(g, setting, points);
    DirectionIs(setting);
    var s := setting.Sideways();
    TouchesZero(xs, AlongOf(points, s), setting.Widths());
    TouchesZero(ys, AcrossOf(points, s), setting.Heights());
    SpotsOf(points, s);
    SizesIs(setting);
    if points != map[] {
      var a :| a in AlongOf(points, s) && AlongOf(points, s)[a] - setting.Widths()(a) / 2.0 == 0.0;
      var b :| b in AcrossOf(points, s) && AcrossOf(points, s)[b] - setting.Heights()(b) / 2.0 == 0.0;
      assert a in points && b in points;
    }
  }

  lemma SpotsOf(points: map<Id, Point>, s: bool)
    ensures AlongOf(points, s).Keys == AcrossOf(points, s).Keys == points.Keys
    ensures forall v :: v in points ==> AlongOf(points, s)[v] == (if s then points[v].y else points[v].x)
    ensures forall v :: v in points ==> AcrossOf(points, s)[v] == (if s then points[v].x else points[v].y)
    ensures AlongOf(points, s) == map[] <==> points == map[]
    ensures AcrossOf(points, s) == map[] <==> points == map[]
  {
    if points != map[] {
      var v :| v in points;
      assert v in AlongOf(points, s) && v in AcrossOf(points, s);
    }
  }

  lemma SizesIs(setting: Setting)
    ensures forall v :: setting.Widths()(v) == if setting.rankDir == LR || setting.rankDir == RL then setting.nodeHeight(v) else setting.nodeWidth(v)
    ensures forall v :: setting.Heights()(v) == if setting.rankDir == LR || setting.rankDir == RL then setting.nodeWidth(v) else setting.nodeHeight(v)
  {
  }

  lemma TouchesZero(xs: map<Id, real>, xs': map<Id, real>, extent: Id -> real)
    requires FromZero(xs, xs', extent)
    ensures forall v :: v in xs' ==> xs'[v] - extent(v) / 2.0 >= 0.0
    ensures xs' == map[] || exists v :: v in xs' && xs'[v] - extent(v) / 2.0 == 0.0
  {
  }

  lemma UprightFrom(g: Rows, setting: Setting, points: map<Id, Point>) returns (xs: map<Id, real>)
    requires Upright(g, setting, points)
    ensures FromZero(xs, AlongOf(points, setting.Sideways()), setting.Widths())
  {
    hide Stacked, FromZero, AcrossOf, AlongOf;
    xs :| FromZero(xs, AlongOf(points, setting.Sideways()), setting.Widths());
  }

  ghost function Times(n: nat, s: real): real {
    n as real * s
  }

  /** Rows that are n further are n times as far apart at least. */
  lemma {:induction false} RowsFar(g: Rows, setting: Setting, i: nat, n: nat)
    requires forall k: nat :: RowHeight(g, setting, k) >= 0.0
    ensures RowMiddle(g, setting, i + n) - RowMiddle(g, setting, i) >= Times(n, setting.rankSep)
    decreases n
  {
    hide *;
    if n > 0 {
      var j := i + n - 1;
      RowsFar(g, setting, i, n - 1);
      NextMiddle(g, setting, j);
      assert i + (n - 1) == j && i + n == j + 1;
      assert RowHeight(g, setting, j) >= 0.0 && RowHeight(g, setting, j + 1) >= 0.0;
      OnceMore(n, setting.rankSep);
    } else {
      NoTimes(setting.rankSep);
    }
  }

  lemma OnceMore(n: nat, s: real)
    requires n > 0
    ensures Times(n, s) == Times(n - 1, s) + s
  {
  }

  lemma NoTimes(s: real)
    ensures Times(0, s) == 0.0
  {
  }

  /** How far v is from u in the rank direction. */
  ghost function Ahead(setting: Setting, points: map<Id, Point>, u: Id, v: Id): real
    requires u in points && v in points
  {
    match setting.rankDir
    case TB => points[v].y - points[u].y
    case BT => points[u].y - points[v].y
    case LR => points[v].x - points[u].x
    case RL => points[u].x - points[v].x
  }

  lemma LaterAhead(g: Rows, setting: Setting, dummies: set<Id>, xss: Candidates, points: map<Id, Point>, u: Id, v: Id)
    requires g.Valid() && Proper(setting) && Finished(g, setting, dummies, xss, points) && u in g.pos && v in g.pos && g.L(u) <= g.L(v)
    ensures u in points && v in points && Ahead(setting, points, u, v) >= Times(g.L(v) - g.L(u), setting.rankSep)
  {
    hide *;
    FinishedParts(g, setting, dummies, xss, points);
    var ys := UprightStack(g, setting, points);
    StackedAt(g, setting, ys, AcrossOf(points, setting.Sideways()), u, v);
    SpotOf(points, setting.Sideways(), u);
    SpotOf(points, setting.Sideways(), v);
    forall k: nat ensures RowHeight(g, setting, k) >= 0.0 {
      RowHeightPositive(g, setting, k);
    }
    RowsFar(g, setting, g.L(u), g.L(v) - g.L(u));
    AheadIs(setting, points, u, v);
  }

  lemma AheadIs(setting: Setting, points: map<Id, Point>, u: Id, v: Id)
    requires u in points && v in points
    ensures var a := if setting.Sideways() then points[v].x - points[u].x else points[v].y - points[u].y;
      Ahead(setting, points, u, v) == if setting.Backwards() then -a else a
  {
  }

  // ---------- no two nodes overlap ----------

  /** The sizes are not negative, nor are the distances asked for; and a universal separation, which replaces the sizes, is large enough. */
  ghost predicate Proper(setting: Setting) {
    && setting.rankSep >= 0.0 && (forall u :: setting.nodeWidth(u) >= 0.0 && setting.nodeHeight(u) >= 0.0)
    && (if setting.universalSep.Some? then forall u :: setting.universalSep.value >= setting.Width(u) / 2.0
        else setting.nodeSep >= 0.0 && setting.edgeSep >= 0.0)
  }

  /** The boxes of two nodes have no inner point in common. */
  ghost predicate Disjoint(setting: Setting, points: map<Id, Point>, u: Id, v: Id)
    requires u in points && v in points
  {
    var p, q := points[u], points[v];
    || p.x - q.x >= (setting.nodeWidth(u) + setting.nodeWidth(v)) / 2.0 || q.x - p.x >= (setting.nodeWidth(u) + setting.nodeWidth(v)) / 2.0
    || p.y - q.y >= (setting.nodeHeight(u) + setting.nodeHeight(v)) / 2.0 || q.y - p.y >= (setting.nodeHeight(u) + setting.nodeHeight(v)) / 2.0
  }

  /** Not only neighbours keep their distance. */
  lemma {:induction false} RowSpread(g: Rows, sep: Id -> real, xs: map<Id, real>, u: Id, v: Id)
    requires g.Valid() && Spread(g, sep, xs) && (forall x :: sep(x) >= 0.0)
    requires u in g.pos && v in g.pos && g.L(u) == g.L(v) && g.P(u) < g.P(v)
    ensures At(xs, v) >= At(xs, u) + sep(u) + sep(v)
    decreases g.P(v)
  {
    hide Rows.L, Rows.P;
    var w := Before(g, v);
    assert At(xs, v) >= At(xs, w) + sep(w) + sep(v);
    if g.P(u) < g.P(w) {
      RowSpread(g, sep, xs, u, w);
      assert sep(w) >= 0.0;
    } else {
      SameSpot(g, u, w);
    }
  }

  lemma Before(g: Rows, v: Id) returns (w: Id)
    requires g.Valid() && v in g.pos && g.P(v) > 0
    ensures w in g.pos && g.L(w) == g.L(v) && g.P(w) + 1 == g.P(v) && g.Adjacent(w, v)
  {
    assert g.In(g.L(v), g.P(v)) && g.In(g.L(v), g.P(v) - 1);
    w := g.rows[g.L(v)][g.P(v) - 1];
  }

  /** The first and the last nodes of the rows do have the least and the greatest coordinates of all. */
  lemma EndsOfAll(g: Rows, sep: Id -> real, xs: map<Id, real>, v: Id)
    requires g.Valid() && Full(g) && Spread(g, sep, xs) && (forall x :: sep(x) >= 0.0) && v in g.pos
    ensures MinCoord(g, xs) <= At(xs, v) <= MaxCoord(g, xs)
    ensures exists a, b :: a in g.pos && b in g.pos && At(xs, a) == MinCoord(g, xs) && At(xs, b) == MaxCoord(g, xs)
  {
    hide *;
    RowThere(g, v);
    var n := |g.rows[g.L(v)]|;
    var first, last := g.rows[g.L(v)][0], g.rows[g.L(v)][n - 1];
    PlaceIn(g, g.L(v), 0);
    PlaceIn(g, g.L(v), n - 1);
    assert sep(first) >= 0.0 && sep(last) >= 0.0 && sep(v) >= 0.0;
    if g.P(v) > 0 {
      RowSpread(g, sep, xs, first, v);
    } else {
      SameSpot(g, first, v);
    }
    if g.P(v) < n - 1 {
      RowSpread(g, sep, xs, v, last);
    } else {
      SameSpot(g, v, last);
    }
    StartsLength(g, xs);
    LeastIs(Starts(g, xs));
    LeastIs(Ends(g, xs));
    EndsAt(g, xs, g.L(v));
    CoordsAre(g, xs);
    var i: nat :| i < |Starts(g, xs)| && Starts(g, xs)[i] == Least(Starts(g, xs));
    var j: nat :| j < |Ends(g, xs)| && Ends(g, xs)[j] == Least(Ends(g, xs));
    RowNotEmpty(g, i);
    RowNotEmpty(g, j);
    EndsAt(g, xs, i);
    EndsAt(g, xs, j);
    PlaceIn(g, i, 0);
    PlaceIn(g, j, |g.rows[j]| - 1);
    assert At(xs, g.rows[i][0]) == MinCoord(g, xs) && At(xs, g.rows[j][|g.rows[j]| - 1]) == MaxCoord(g, xs);
  }

  lemma RowNotEmpty(g: Rows, i: nat)
    requires Full(g) && i < |g.rows|
    ensures |g.rows[i]| > 0
  {
  }

  lemma EndsAt(g: Rows, xs: map<Id, real>, i: nat)
    requires i < |g.rows| && g.rows[i] != []
    ensures |Starts(g, xs)| == |Ends(g, xs)| == |g.rows|
    ensures Starts(g, xs)[i] == At(xs, g.rows[i][0]) && Ends(g, xs)[i] == -At(xs, g.rows[i][|g.rows[i]| - 1])
  {
    hide At;
  }

  /** Rows further down are further down. */
  lemma {:induction false} RowsSpread(g: Rows, setting: Setting, i: nat, j: nat)
    requires i < j && setting.rankSep >= 0.0 && forall k: nat :: RowHeight(g, setting, k) >= 0.0
    ensures RowMiddle(g, setting, j) >= RowMiddle(g, setting, i) + RowHeight(g, setting, i) / 2.0 + RowHeight(g, setting, j) / 2.0
    decreases j
  {
    hide RowHeight;
    if i < j - 1 {
      RowsSpread(g, setting, i, j - 1);
      assert RowHeight(g, setting, j - 1) >= 0.0;
    }
  }

  lemma RowHeightPositive(g: Rows, setting: Setting, i: nat)
    requires Proper(setting)
    ensures RowHeight(g, setting, i) >= 0.0
  {
    var q := RowHeights(g, setting, i);
    if q != [] {
      LeastIs(q);
      assert q[0] == -setting.Height(g.rows[i][0]) && setting.Height(g.rows[i][0]) >= 0.0;
    }
  }

  lemma RoomEnough(setting: Setting, dummies: set<Id>, u: Id)
    requires Proper(setting)
    ensures setting.Room(dummies)(u) >= setting.Width(u) / 2.0 >= 0.0
  {
  }

  lemma SpotOf(points: map<Id, Point>, sideways: bool, v: Id)
    requires v in points
    ensures At(AlongOf(points, sideways), v) == (if sideways then points[v].y else points[v].x)
    ensures At(AcrossOf(points, sideways), v) == (if sideways then points[v].x else points[v].y)
  {
  }

  lemma StackedAt(g: Rows, setting: Setting, ys0: map<Id, real>, ys: map<Id, real>, u: Id, v: Id)
    requires Stacked(g, setting, ys0) && FromZero(ys0, ys, setting.Heights()) && u in g.pos && v in g.pos
    ensures var d := RowMiddle(g, setting, g.L(v)) - RowMiddle(g, setting, g.L(u));
      At(ys, v) - At(ys, u) == if setting.Backwards() then -d else d
  {
    hide RowMiddle, Rows.L;
    var delta :| ys == Moved(ys0, delta);
  }

  /** In the final layout no two nodes overlap, whatever their sizes and the rank direction. */
  lemma NoOverlap(g: Rows, setting: Setting, dummies: set<Id>, xss: Candidates, points: map<Id, Point>, u: Id, v: Id)
    requires g.Valid() && Proper(setting) && Finished(g, setting, dummies, xss, points) && u in g.pos && v in g.pos && u != v
    ensures u in points && v in points && Disjoint(setting, points, u, v)
  {
    hide *;
    FinishedParts(g, setting, dummies, xss, points);
    SpotOf(points, setting.Sideways(), u);
    SpotOf(points, setting.Sideways(), v);
    if g.L(u) == g.L(v) {
      if g.P(u) == g.P(v) {
        SameSpot(g, u, v);
      } else if g.P(u) < g.P(v) {
        BesideEachOther(g, setting, dummies, points, u, v);
      } else {
        BesideEachOther(g, setting, dummies, points, v, u);
      }
    } else if g.L(u) < g.L(v) {
      AboveEachOther(g, setting, points, u, v);
    } else {
      AboveEachOther(g, setting, points, v, u);
    }
    DisjointMade(setting, points, u, v);
  }

  lemma FinishedParts(g: Rows, setting: Setting, dummies: set<Id>, xss: Candidates, points: map<Id, Point>)
    requires Finished(g, setting, dummies, xss, points)
    ensures points.Keys == g.pos.Keys && InRows(g, setting, dummies, points) && Upright(g, setting, points)
  {
    hide Upright, Averaged, Spread, AlongOf;
  }

  lemma BesideEachOther(g: Rows, setting: Setting, dummies: set<Id>, points: map<Id, Point>, u: Id, v: Id)
    requires g.Valid() && Proper(setting) && InRows(g, setting, dummies, points)
    requires u in g.pos && v in g.pos && g.L(u) == g.L(v) && g.P(u) < g.P(v)
    ensures var xs := AlongOf(points, setting.Sideways()); At(xs, v) - At(xs, u) >= (setting.Width(u) + setting.Width(v)) / 2.0
  {
    hide *;
    InRowsParts(g, setting, dummies, points);
    forall x ensures setting.Room(dummies)(x) >= 0.0 {
      RoomEnough(setting, dummies, x);
    }
    RoomEnough(setting, dummies, u);
    RoomEnough(setting, dummies, v);
    RowSpread(g, setting.Room(dummies), AlongOf(points, setting.Sideways()), u, v);
  }

  lemma InRowsParts(g: Rows, setting: Setting, dummies: set<Id>, points: map<Id, Point>)
    requires InRows(g, setting, dummies, points)
    ensures Spread(g, setting.Room(dummies), AlongOf(points, setting.Sideways()))
  {
    hide Spread, AlongOf;
  }

  lemma AboveEachOther(g: Rows, setting: Setting, points: map<Id, Point>, u: Id, v: Id)
    requires g.Valid() && Proper(setting) && Upright(g, setting, points) && u in g.pos && v in g.pos && g.L(u) < g.L(v)
    ensures var ys := AcrossOf(points, setting.Sideways());
      (if setting.Backwards() then At(ys, u) - At(ys, v) else At(ys, v) - At(ys, u)) >= (setting.Height(u) + setting.Height(v)) / 2.0
  {
    hide *;
    var ys := UprightStack(g, setting, points);
    StackedAt(g, setting, ys, AcrossOf(points, setting.Sideways()), u, v);
    forall k: nat ensures RowHeight(g, setting, k) >= 0.0 {
      RowHeightPositive(g, setting, k);
    }
    ProperRanks(setting);
    RowsSpread(g, setting, g.L(u), g.L(v));
    RowHeightIs(g, setting, u);
    RowHeightIs(g, setting, v);
  }

  lemma ProperRanks(setting: Setting)
    requires Proper(setting)
    ensures setting.rankSep >= 0.0
  {
  }

  lemma UprightStack(g: Rows, setting: Setting, points: map<Id, Point>) returns (ys: map<Id, real>)
    requires Upright(g, setting, points)
    ensures Stacked(g, setting, ys) && FromZero(ys, AcrossOf(points, setting.Sideways()), setting.Heights())
  {
    hide Stacked, FromZero, AcrossOf, AlongOf;
    ys :| Stacked(g, setting, ys) && FromZero(ys, AcrossOf(points, setting.Sideways()), setting.Heights());
  }

  lemma DisjointMade(setting: Setting, points: map<Id, Point>, u: Id, v: Id)
    requires u in points && v in points
    requires var p, q, s := points[u], points[v], setting.Sideways();
      var a, b := if s then p.y else p.x, if s then q.y else q.x;
      var c, d := if s then p.x else p.y, if s then q.x else q.y;
      || b - a >= (setting.Width(u) + setting.Width(v)) / 2.0 || a - b >= (setting.Width(u) + setting.Width(v)) / 2.0
      || d - c >= (setting.Height(u) + setting.Height(v)) / 2.0 || c - d >= (setting.Height(u) + setting.Height(v)) / 2.0
    ensures Disjoint(setting, points, u, v)
  {
  }
}
