/** The edges that alignment has to give up: those that cross an inner segment, an edge between two dummies. */
module Conflicts {
  import opened Base
  import opened Digraphs
  import opened Alignments
  import opened Positions

  /** The layers, which nodes are dummies, and the predecessor that is listed first for each node that has any. */
  datatype Scene = Scene(g: Rows, dummy: set<Id>, first: map<Id, Id>) {
    ghost predicate Valid() {
      && g.Valid()
      && forall w :: w in g.pos ==> if g.preds[w] == {} then w !in first else w in first && first[w] in g.preds[w]
    }

    /** w is the lower end of an inner segment. */
    predicate Inner(w: Id) {
      w in dummy && w in first && first[w] in dummy
    }

    /** The place of its upper end. */
    function Upper(w: Id): nat {
      if w in first then g.P(first[w]) else 0
    }

    predicate InnerAt(i: nat, k: nat) {
      i < |g.rows| && k < |g.rows[i]| && Inner(g.rows[i][k])
    }

    function UpperAt(i: nat, k: nat): nat {
      if i < |g.rows| && k < |g.rows[i]| then Upper(g.rows[i][k]) else 0
    }

    /** a is the last inner segment of row i before place k. */
    ghost predicate LastBefore(i: nat, k: nat, a: nat) {
      a < k && InnerAt(i, a) && forall c: nat :: a < c < k ==> !InnerAt(i, c)
    }

    /** b is the next inner segment of row i from place k on. */
    ghost predicate NextFrom(i: nat, k: nat, b: nat) {
      k <= b && InnerAt(i, b) && forall c: nat :: k <= c < b ==> !InnerAt(i, c)
    }

    /** An edge from place p to place k of row i lies outside the inner segments next to it. */
    ghost predicate Flagged(i: nat, k: nat, p: nat) {
      || (exists a: nat :: LastBefore(i, k, a) && p < UpperAt(i, a))
      || (exists b: nat :: NextFrom(i, k, b) && p > UpperAt(i, b))
    }

    /** The edges that are marked; those between the first two rows never are. */
    ghost predicate Marked(w: Id, v: Id) {
      w in g.pos && w in g.preds && g.L(w) >= 2 && v in g.preds[w] && Flagged(g.L(w), g.P(w), g.P(v))
    }

    /** The edge from v to w crosses the inner segment that ends in x. */
    ghost predicate CrossesInner(w: Id, v: Id, x: Id) {
      && w in g.pos && x in g.pos && g.L(x) == g.L(w) && Inner(x)
      && ((g.P(x) < g.P(w) && Upper(x) > g.P(v)) || (g.P(x) > g.P(w) && Upper(x) < g.P(v)))
    }

    /** From the third row on, inner segments do not cross each other. */
    ghost predicate Untangled() {
      forall x, y :: x in g.pos && y in g.pos && g.L(x) == g.L(y) >= 2 && Inner(x) && Inner(y) && g.P(x) < g.P(y) ==> Upper(x) <= Upper(y)
    }

    /** The edges into the second row cross no inner segment. */
    ghost predicate FirstFree() {
      forall w, v, x :: w in g.pos && w in g.preds && g.L(w) == 1 && v in g.preds[w] ==> !CrossesInner(w, v, x)
    }

    /** What the marks are for: every edge that crosses an inner segment has one. */
    ghost predicate AllMarked() {
      forall w, v, x :: w in g.pos && w in g.preds && v in g.preds[w] && CrossesInner(w, v, x) ==> Marked(w, v)
    }
  }

  /** w is scanned before place k of row i. */
  predicate Done(g: Rows, w: Id, i: nat, k: nat) {
    g.L(w) < i || (g.L(w) == i && g.P(w) < k)
  }

  ghost predicate Found(s: Scene, conflicts: set<(Id, Id)>, i: nat, k: nat) {
    forall w, v :: (w, v) in conflicts <==> s.Marked(w, v) && Done(s.g, w, i, k)
  }

  /** Where the scan of row i stands: the places from l to l1 - 1 have been passed without an inner segment, and k0 is the upper end of the one
      right before. */
  ghost predicate Scanning(s: Scene, i: nat, l: nat, l1: nat, k0: int) {
    && i < |s.g.rows| && l <= l1 <= |s.g.rows[i]| && (forall c: nat :: l <= c < l1 ==> !s.InnerAt(i, c))
    && (if l == 0 then k0 == 0 else s.InnerAt(i, l - 1) && k0 == s.UpperAt(i, l - 1))
  }

  /** The scan has come to a stop at l1, with the bound k1 on the right. */
  ghost predicate Stopped(s: Scene, i: nat, l: nat, l1: nat, k1: int) {
    && i < |s.g.rows| && l <= l1 < |s.g.rows[i]| && (forall c: nat :: l <= c < l1 ==> !s.InnerAt(i, c))
    && if s.InnerAt(i, l1) then k1 == s.UpperAt(i, l1) else i > 0 && k1 == |s.g.rows[i - 1]| - 1 && l1 == |s.g.rows[i]| - 1
  }

  /** Left bound of the place k within a stretch that starts at l0. */
  ghost predicate LeftBound(s: Scene, i: nat, k: nat, k0: int) {
    (k0 == 0 && forall c: nat :: c < k ==> !s.InnerAt(i, c)) || exists a: nat :: s.LastBefore(i, k, a) && k0 == s.UpperAt(i, a)
  }

  lemma BoundOf(s: Scene, i: nat, l: nat, l1: nat, k0: int, k: nat)
    requires Scanning(s, i, l, l1, k0) && l <= k <= l1
    ensures LeftBound(s, i, k, k0)
  {
    if l > 0 {
      assert s.LastBefore(i, k, l - 1);
    }
  }

  /** In a stretch, an edge is flagged exactly if it lies outside the bounds. */
  lemma FlaggedBetween(s: Scene, i: nat, l: nat, l1: nat, k0: int, k1: int, k: nat, p: nat)
    requires LeftBound(s, i, k, k0) && Stopped(s, i, l, l1, k1) && l <= k <= l1 && i > 0 && p < |s.g.rows[i - 1]|
    ensures s.Flagged(i, k, p) <==> p < k0 || p > k1
  {
    hide Scene.InnerAt, Scene.UpperAt;
    if s.InnerAt(i, l1) {
      assert s.NextFrom(i, k, l1);
      forall b: nat | s.NextFrom(i, k, b) ensures b == l1 {
      }
    } else {
      forall b: nat ensures !s.NextFrom(i, k, b) {
        if b > l1 {
          NothingBeyond(s, i, b);
        }
      }
    }
    forall a: nat, a': nat | s.LastBefore(i, k, a) && s.LastBefore(i, k, a') ensures a == a' {
    }
  }

  lemma NothingBeyond(s: Scene, i: nat, b: nat)
    requires i < |s.g.rows| && b >= |s.g.rows[i]|
    ensures !s.InnerAt(i, b)
  {
  }

  // ---------- what the marks mean ----------

  lemma PlaceIs(s: Scene, w: Id)
    requires s.Valid() && w in s.g.pos
    ensures var i, k := s.g.L(w), s.g.P(w); i < |s.g.rows| && k < |s.g.rows[i]| && s.g.rows[i][k] == w
    ensures s.InnerAt(s.g.L(w), s.g.P(w)) <==> s.Inner(w)
    ensures s.UpperAt(s.g.L(w), s.g.P(w)) == s.Upper(w)
  {
    hide Scene.Inner, Scene.Upper;
    assert s.g.In(s.g.L(w), s.g.P(w));
  }

  lemma NodeAt(s: Scene, i: nat, k: nat) returns (x: Id)
    requires s.Valid() && s.InnerAt(i, k)
    ensures x in s.g.pos && s.g.L(x) == i && s.g.P(x) == k && s.Inner(x) && s.Upper(x) == s.UpperAt(i, k)
  {
    hide Scene.Inner, Scene.Upper;
    assert s.g.In(i, k);
    x := s.g.rows[i][k];
  }

  /** A marked edge crosses an inner segment, or ends in one and is to the right of it. */
  lemma MarkedCrosses(s: Scene, w: Id, v: Id) returns (x: Id)
    requires s.Valid() && s.Marked(w, v)
    ensures s.CrossesInner(w, v, x) || (x == w && s.Inner(w) && s.Upper(w) < s.g.P(v))
  {
    hide Scene.Inner, Scene.Upper, Scene.InnerAt, Scene.UpperAt, Scene.Valid;
    var i, k := s.g.L(w), s.g.P(w);
    if a: nat :| s.LastBefore(i, k, a) && s.g.P(v) < s.UpperAt(i, a) {
      x := NodeAt(s, i, a);
    } else {
      var b: nat :| s.NextFrom(i, k, b) && s.g.P(v) > s.UpperAt(i, b);
      x := NodeAt(s, i, b);
      if b == k {
        PlaceIs(s, w);
        PlaceIs(s, x);
        SamePlace(s, w, x);
      }
    }
  }

  lemma SamePlace(s: Scene, w: Id, x: Id)
    requires s.Valid() && w in s.g.pos && x in s.g.pos && s.g.L(w) == s.g.L(x) && s.g.P(w) == s.g.P(x)
    ensures w == x
  {
    hide Rows.L, Rows.P;
  }

  lemma {:induction false} LastExists(s: Scene, i: nat, k: nat, a: nat) returns (b: nat)
    requires a < k && s.InnerAt(i, a)
    ensures a <= b && s.LastBefore(i, k, b)
    decreases k
  {
    hide Scene.InnerAt;
    if s.InnerAt(i, k - 1) {
      b := k - 1;
    } else {
      b := LastExists(s, i, k - 1, a);
    }
  }

  lemma {:induction false} NextExists(s: Scene, i: nat, k: nat, a: nat) returns (b: nat)
    requires k <= a && s.InnerAt(i, a)
    ensures b <= a && s.NextFrom(i, k, b)
    decreases a - k
  {
    hide Scene.InnerAt;
    if s.InnerAt(i, k) {
      b := k;
    } else {
      b := NextExists(s, i, k + 1, a);
    }
  }

  /** From the third row on: if inner segments do not cross each other, every edge that crosses one is marked. */
  lemma CrossingMarked(s: Scene, w: Id, v: Id, x: Id)
    requires s.Valid() && s.Untangled() && s.CrossesInner(w, v, x) && s.g.L(w) >= 2 && w in s.g.preds && v in s.g.preds[w]
    ensures s.Marked(w, v)
  {
    hide Scene.Inner, Scene.Upper, Scene.InnerAt, Scene.UpperAt, Scene.Valid, Scene.LastBefore, Scene.NextFrom;
    var i, k, p := s.g.L(w), s.g.P(w), s.g.P(v);
    PlaceIs(s, x);
    if s.g.P(x) < k {
      var a := LastExists(s, i, k, s.g.P(x));
      var y := LastNode(s, i, k, a);
      assert s.Upper(x) <= s.Upper(y) by {
        if s.g.P(x) == s.g.P(y) {
          SamePlace(s, x, y);
        }
      }
      assert s.LastBefore(i, k, a) && p < s.UpperAt(i, a);
    } else {
      var b := NextExists(s, i, k, s.g.P(x));
      var y := NextNode(s, i, k, b);
      assert s.Upper(y) <= s.Upper(x) by {
        if s.g.P(x) == s.g.P(y) {
          SamePlace(s, x, y);
        }
      }
      assert s.NextFrom(i, k, b) && p > s.UpperAt(i, b);
    }
  }

  lemma LastNode(s: Scene, i: nat, k: nat, a: nat) returns (y: Id)
    requires s.Valid() && s.LastBefore(i, k, a)
    ensures y in s.g.pos && s.g.L(y) == i && s.g.P(y) == a && s.Inner(y) && s.Upper(y) == s.UpperAt(i, a)
  {
    y := NodeAt(s, i, a);
  }

  lemma NextNode(s: Scene, i: nat, k: nat, b: nat) returns (y: Id)
    requires s.Valid() && s.NextFrom(i, k, b)
    ensures y in s.g.pos && s.g.L(y) == i && s.g.P(y) == b && s.Inner(y) && s.Upper(y) == s.UpperAt(i, b)
  {
    y := NodeAt(s, i, b);
  }

  /** Among the inner segments of row i before place n, one whose upper end is furthest right. */
  lemma {:induction false} Furthest(s: Scene, i: nat, a: nat, n: nat) returns (c: nat)
    requires a < n && s.InnerAt(i, a)
    ensures c < n && s.InnerAt(i, c) && forall e: nat :: e < n && s.InnerAt(i, e) ==> s.UpperAt(i, e) <= s.UpperAt(i, c)
    decreases n
  {
    hide Scene.InnerAt, Scene.UpperAt;
    if a < n - 1 {
      c := Furthest(s, i, a, n - 1);
      if s.InnerAt(i, n - 1) && s.UpperAt(i, n - 1) > s.UpperAt(i, c) {
        c := n - 1;
      }
    } else if k: nat :| k < n - 1 && s.InnerAt(i, k) {
      c := Furthest(s, i, k, n - 1);
      if s.UpperAt(i, n - 1) > s.UpperAt(i, c) {
        c := n - 1;
      }
    } else {
      c := n - 1;
    }
  }

  /** Of two inner segments that cross each other, or of one further left, the edge itself is not marked. */
  lemma TangleUnmarked(s: Scene, x: Id, y: Id) returns (w: Id, v: Id)
    requires s.Valid() && x in s.g.pos && y in s.g.pos && s.g.L(x) == s.g.L(y) && s.Inner(x) && s.Inner(y)
    requires s.g.P(x) < s.g.P(y) && s.Upper(x) > s.Upper(y)
    ensures w in s.g.pos && w in s.g.preds && s.g.L(w) == s.g.L(x) && v in s.g.preds[w] && s.CrossesInner(w, v, y) && !s.Marked(w, v)
  {
    hide Scene.Inner, Scene.Upper, Scene.InnerAt, Scene.UpperAt, Scene.Valid;
    var i, b := s.g.L(x), s.g.P(y);
    PlaceIs(s, x);
    PlaceIs(s, y);
    var c := Furthest(s, i, s.g.P(x), b);
    w := NodeAt(s, i, c);
    v := UpperEnd(s, w);
    forall e: nat | s.NextFrom(i, c, e) ensures e == c {
    }
    assert !s.Flagged(i, c, s.g.P(v));
  }

  lemma UpperEnd(s: Scene, w: Id) returns (v: Id)
    requires s.Valid() && w in s.g.pos && s.Inner(w)
    ensures w in s.g.preds && v in s.g.preds[w] && s.g.P(v) == s.Upper(w)
  {
    hide Rows.P, Rows.L;
    v := s.first[w];
  }

  /** Every edge that crosses an inner segment is marked exactly if none does so on the way into the second row and inner segments do not cross each
      other further down. */
  lemma AllMarkedWhen(s: Scene)
    requires s.Valid()
    ensures s.AllMarked() <==> s.FirstFree() && s.Untangled()
  {
    hide Scene.Inner, Scene.Upper, Scene.Valid, Scene.CrossesInner, Scene.Flagged;
    if s.AllMarked() {
      forall x, y | x in s.g.pos && y in s.g.pos && s.g.L(x) == s.g.L(y) >= 2 && s.Inner(x) && s.Inner(y) && s.g.P(x) < s.g.P(y)
        ensures s.Upper(x) <= s.Upper(y)
      {
        if s.Upper(x) > s.Upper(y) {
          var w, v := TangleUnmarked(s, x, y);
        }
      }
    }
    if s.FirstFree() && s.Untangled() {
      forall w, v, x | w in s.g.pos && w in s.g.preds && v in s.g.preds[w] && s.CrossesInner(w, v, x) ensures s.Marked(w, v) {
        HasRow(s, w, v);
        assert s.g.L(w) != 1;
        CrossingMarked(s, w, v, x);
      }
    }
  }

  lemma HasRow(s: Scene, w: Id, v: Id)
    requires s.Valid() && w in s.g.pos && w in s.g.preds && v in s.g.preds[w]
    ensures s.g.L(w) >= 1
  {
    hide Rows.In, Rows.Mirrored;
    assert s.g.L(v) + 1 == s.g.L(w);
  }

  // ---------- the scan ----------

  method FindConflicts(s: Scene) returns (conflicts: set<(Id, Id)>)
    requires s.Valid()
    ensures forall w, v :: (w, v) in conflicts <==> s.Marked(w, v)
  {
    hide *;
    conflicts := {};
    var rows := s.g.rows;
    if |rows| <= 2 {
      FewRows(s);
      return;
    }
    NothingFound(s);
    for i := 1 to |rows| - 1
      invariant Found(s, conflicts, i + 1, 0)
    {
      var prevLayer, currLayer := rows[i], rows[i + 1];
      var k0: int, l := 0, 0;
      ScanStarts(s, i + 1);
      for l1 := 0 to |currLayer|
        invariant Scanning(s, i + 1, l, l1, k0) || l1 == |currLayer| == l
        invariant l <= l1 && Found(s, conflicts, i + 1, l)
        invariant l1 == |currLayer| ==> l == |currLayer|
      {
        var u := currLayer[l1];
        var k1: Option<int> := None;
        if s.Inner(u) {
          k1 := Some(s.Upper(u));
        }
        if k1.None? && l1 == |currLayer| - 1 {
          k1 := Some(|prevLayer| - 1);
        }
        StopsAt(s, i + 1, l, l1, k0, u, k1);
        if k1.Some? {
          ghost var l0 := l;
          while l <= l1
            invariant l0 <= l <= l1 + 1 && Found(s, conflicts, i + 1, l)
            decreases l1 + 1 - l
          {
            BoundOf(s, i + 1, l0, l1, k0, l);
            conflicts := UpdateConflicts(s, conflicts, i + 1, l0, l1, l, k0, k1.value);
            l := l + 1;
          }
          k0 := k1.value;
        }
        ScanGoesOn(s, i + 1, l1, k1, u);
      }
      RowDone(s, conflicts, i + 1);
    }
    AllFound(s, conflicts);
  }

  /** The edges into place l are looked at. */
  method UpdateConflicts(s: Scene, conflicts0: set<(Id, Id)>, i: nat, ghost l0: nat, ghost l1: nat, l: nat, k0: int, k1: int)
    returns (conflicts: set<(Id, Id)>)
    requires s.Valid() && i >= 2 && Found(s, conflicts0, i, l) && LeftBound(s, i, l, k0) && Stopped(s, i, l0, l1, k1) && l0 <= l <= l1
    ensures Found(s, conflicts, i, l + 1)
  {
    hide *;
    StoppedIn(s, i, l0, l1, k1, l);
    var w := s.g.rows[i][l];
    conflicts := conflicts0;
    var vs := Listing(s.g.preds[w]);
    UptoEnds(vs, s.g.preds[w]);
    EdgesStart(s, conflicts, i, l, w);
    for j := 0 to |vs|
      invariant EdgesFound(s, conflicts, i, l, w, Upto(vs, j))
    {
      UptoStep(vs, s.g.preds[w], j);
      var v := vs[j];
      PredPlace(s, i, l, w, v);
      FlaggedBetween(s, i, l0, l1, k0, k1, l, s.g.P(v));
      EdgesStep(s, conflicts, i, l, w, Upto(vs, j), v);
      if s.g.P(v) < k0 || s.g.P(v) > k1 {
        conflicts := conflicts + {(w, v)};
      }
    }
    EdgesEnd(s, conflicts, i, l, w);
  }

  ghost predicate EdgesFound(s: Scene, conflicts: set<(Id, Id)>, i: nat, l: nat, w: Id, vs: set<Id>) {
    forall x, v :: (x, v) in conflicts <==> s.Marked(x, v) && (Done(s.g, x, i, l) || (x == w && v in vs))
  }

  lemma StoppedIn(s: Scene, i: nat, l0: nat, l1: nat, k1: int, l: nat)
    requires s.Valid() && Stopped(s, i, l0, l1, k1) && l <= l1
    ensures i < |s.g.rows| && l < |s.g.rows[i]| && s.g.rows[i][l] in s.g.pos && s.g.rows[i][l] in s.g.preds
    ensures s.g.L(s.g.rows[i][l]) == i && s.g.P(s.g.rows[i][l]) == l
  {
    hide Scene.InnerAt, Scene.UpperAt;
    assert s.g.In(i, l);
  }

  lemma EdgesStart(s: Scene, conflicts: set<(Id, Id)>, i: nat, l: nat, w: Id)
    requires Found(s, conflicts, i, l)
    ensures EdgesFound(s, conflicts, i, l, w, {})
  {
    hide Scene.Marked;
  }

  lemma PredPlace(s: Scene, i: nat, l: nat, w: Id, v: Id)
    requires s.Valid() && w in s.g.pos && s.g.L(w) == i && v in s.g.preds[w]
    ensures i > 0 && i - 1 < |s.g.rows| && s.g.P(v) < |s.g.rows[i - 1]|
  {
    hide Rows.L, Rows.P;
    assert s.g.In(s.g.L(v), s.g.P(v));
  }

  lemma EdgesStep(s: Scene, conflicts: set<(Id, Id)>, i: nat, l: nat, w: Id, vs: set<Id>, v: Id)
    requires EdgesFound(s, conflicts, i, l, w, vs) && w in s.g.pos && w in s.g.preds && v in s.g.preds[w] && i >= 2 && s.g.L(w) == i && s.g.P(w) == l
    ensures s.Flagged(i, l, s.g.P(v)) ==> EdgesFound(s, conflicts + {(w, v)}, i, l, w, vs + {v})
    ensures !s.Flagged(i, l, s.g.P(v)) ==> EdgesFound(s, conflicts, i, l, w, vs + {v})
  {
    hide Scene.Flagged;
  }

  lemma EdgesEnd(s: Scene, conflicts: set<(Id, Id)>, i: nat, l: nat, w: Id)
    requires s.Valid() && w in s.g.pos && w in s.g.preds && EdgesFound(s, conflicts, i, l, w, s.g.preds[w]) && s.g.L(w) == i && s.g.P(w) == l
    ensures Found(s, conflicts, i, l + 1)
  {
    hide Scene.Flagged;
    forall x, v | s.Marked(x, v) ensures Done(s.g, x, i, l + 1) <==> Done(s.g, x, i, l) || x == w {
      if s.g.L(x) == i && s.g.P(x) == l {
        SamePlace(s, x, w);
      }
    }
  }

  lemma FewRows(s: Scene)
    requires s.Valid() && |s.g.rows| <= 2
    ensures forall w, v :: !s.Marked(w, v)
  {
    forall w, v ensures !s.Marked(w, v) {
      if w in s.g.pos {
        PlaceIs(s, w);
      }
    }
  }

  lemma NothingFound(s: Scene)
    ensures Found(s, {}, 2, 0)
  {
  }

  lemma ScanStarts(s: Scene, i: nat)
    requires i < |s.g.rows|
    ensures Scanning(s, i, 0, 0, 0)
  {
  }

  lemma StopsAt(s: Scene, i: nat, l: nat, l1: nat, k0: int, u: Id, k1: Option<int>)
    requires i < |s.g.rows| && i > 0 && l1 < |s.g.rows[i]| && u == s.g.rows[i][l1]
    requires Scanning(s, i, l, l1, k0)
    requires k1 == (if s.Inner(u) then Some(s.Upper(u) as int) else if l1 == |s.g.rows[i]| - 1 then Some(|s.g.rows[i - 1]| - 1) else None)
    ensures k1.Some? ==> Stopped(s, i, l, l1, k1.value)
    ensures k1.None? ==> Scanning(s, i, l, l1 + 1, k0)
  {
    hide Scene.Inner, Scene.Upper;
  }

  lemma ScanGoesOn(s: Scene, i: nat, l1: nat, k1: Option<int>, u: Id)
    requires i < |s.g.rows| && i > 0 && l1 < |s.g.rows[i]| && u == s.g.rows[i][l1]
    requires k1 == (if s.Inner(u) then Some(s.Upper(u) as int) else if l1 == |s.g.rows[i]| - 1 then Some(|s.g.rows[i - 1]| - 1) else None)
    ensures k1.Some? && s.Inner(u) ==> Scanning(s, i, l1 + 1, l1 + 1, k1.value)
    ensures k1.Some? && !s.Inner(u) ==> l1 + 1 == |s.g.rows[i]|
  {
    hide Scene.Inner, Scene.Upper;
  }

  lemma RowDone(s: Scene, conflicts: set<(Id, Id)>, i: nat)
    requires s.Valid() && i < |s.g.rows| && Found(s, conflicts, i, |s.g.rows[i]|)
    ensures Found(s, conflicts, i + 1, 0)
  {
    hide Scene.Flagged;
    forall w, v | s.Marked(w, v) ensures Done(s.g, w, i, |s.g.rows[i]|) <==> Done(s.g, w, i + 1, 0) {
      PlaceIs(s, w);
    }
  }

  lemma AllFound(s: Scene, conflicts: set<(Id, Id)>)
    requires s.Valid() && Found(s, conflicts, |s.g.rows|, 0)
    ensures forall w, v :: (w, v) in conflicts <==> s.Marked(w, v)
  {
    hide Scene.Flagged;
    forall w, v | s.Marked(w, v) ensures Done(s.g, w, |s.g.rows|, 0) {
      PlaceIs(s, w);
    }
  }

  // ---------- what it is for ----------

  /** With these conflicts, if they are all there should be, no link of any of the four alignments crosses an inner segment. */
  lemma InnerFirst(s: Scene, g: Rows, down: bool, flip: bool, up: map<Id, Id>, root: map<Id, Id>, align: map<Id, Id>, v: Id, x: Id)
    requires s.Valid() && s.FirstFree() && s.Untangled() && g == s.g.(conflicts := g.conflicts)
    requires forall w, v :: (w, v) in g.conflicts <==> s.Marked(w, v)
    requires Aligned(g.View(down, flip), up, root, align) && v in up
    ensures var w, t := if down then up[v] else v, if down then v else up[v]; !s.CrossesInner(w, t, x)
  {
    hide Scene.FirstFree, Scene.Untangled, Scene.Marked, Scene.CrossesInner, Scene.Valid, Rows.View;
    var w, t := if down then up[v] else v, if down then v else up[v];
    LinkFree(g, down, flip, up, root, align, v);
    LinkIsEdge(s, g, down, flip, up, root, align, v);
    AllMarkedWhen(s);
    assert s.CrossesInner(w, t, x) ==> s.Marked(w, t);
  }

  /** A link is an edge between two rows. */
  lemma LinkIsEdge(s: Scene, g: Rows, down: bool, flip: bool, up: map<Id, Id>, root: map<Id, Id>, align: map<Id, Id>, v: Id)
    requires s.Valid() && g == s.g.(conflicts := g.conflicts) && Aligned(g.View(down, flip), up, root, align) && v in up
    ensures var w, t := if down then up[v] else v, if down then v else up[v]; w in s.g.pos && w in s.g.preds && t in s.g.preds[w]
  {
    hide *;
    var view := g.View(down, flip);
    ViewRelated(g, down, flip);
    LinkEnds(view, up, root, align, v);
    MedianRelated(view, v, up[v]);
    BothEnds(s, v, up[v], down);
  }

  lemma ViewRelated(g: Rows, down: bool, flip: bool)
    ensures g.View(down, flip).related == (if down then g.succs else g.preds) && g.View(down, flip).pos.Keys == g.pos.Keys
  {
  }

  lemma LinkEnds(view: Sheet, up: map<Id, Id>, root: map<Id, Id>, align: map<Id, Id>, v: Id)
    requires Aligned(view, up, root, align) && v in up
    ensures v in view.pos && up[v] in view.pos && view.Median(v, up[v])
  {
    hide Sheet.Median, Sheet.Blocks, Sheet.Greedy, Sheet.Conflict, Sheet.L, Sheet.P;
  }

  lemma BothEnds(s: Scene, v: Id, u: Id, down: bool)
    requires s.Valid() && v in s.g.pos && u in s.g.pos
    requires var near := if down then s.g.succs else s.g.preds; v in near && u in near[v]
    ensures var w, t := if down then u else v, if down then v else u; w in s.g.pos && w in s.g.preds && t in s.g.preds[w]
  {
    hide Rows.L, Rows.P, Rows.In;
  }

  lemma MedianRelated(view: Sheet, v: Id, u: Id)
    requires view.Median(v, u)
    ensures v in view.related && u in view.related[v]
  {
    var q :| Lists(q, view.related[v]) && view.Sorted(q) && |q| > 0 && (q[(|q| - 1) / 2] == u || q[|q| / 2] == u);
    assert u in q;
  }

  lemma LinkFree(g: Rows, down: bool, flip: bool, up: map<Id, Id>, root: map<Id, Id>, align: map<Id, Id>, v: Id)
    requires Aligned(g.View(down, flip), up, root, align) && v in up
    ensures (v, up[v]) !in g.conflicts && (up[v], v) !in g.conflicts
  {
    hide Sheet.Median, Sheet.Blocks, Sheet.Greedy, Rows.RowsSeen;
    assert g.View(down, flip).conflicts == g.conflicts;
  }

  lemma SceneMade(s: Scene)
    requires s.g.Valid()
    requires forall w :: w in s.g.pos ==> w in s.g.preds && if s.g.preds[w] == {} then w !in s.first else w in s.first && s.first[w] in s.g.preds[w]
    ensures s.Valid()
  {
    hide Rows.Valid;
  }

  // ---------- two long edges that cross ----------

  function Rank(u: Id): nat {
    if u.Gen? then u.n / 2 else 0
  }

  function Side(u: Id): nat {
    if u.Gen? then u.n % 2 else 0
  }

  /** Two edges, each passing three rows, as normalization leaves them: rows of two nodes, Gen(2i) on the left and Gen(2i + 1) on the right. Between the
      second row and the third the edges change sides. */
  function Before(u: Id): Id {
    if Rank(u) == 2 then Gen(3 - Side(u)) else Gen(if Rank(u) > 0 then 2 * Rank(u) + Side(u) - 2 else 0)
  }

  function After(u: Id): Id {
    if Rank(u) == 1 then Gen(5 - Side(u)) else Gen(2 * Rank(u) + Side(u) + 2)
  }

  function BraidNodes(): set<Id> {
    set n: nat | n < 10 :: Gen(n)
  }

  function BraidRows(): Rows {
    Rows(seq(5, i requires 0 <= i < 5 => [Gen(2 * i), Gen(2 * i + 1)]), map u | u in BraidNodes() :: Rank(u), map u | u in BraidNodes() :: Side(u),
      map u | u in BraidNodes() :: if Rank(u) == 0 then {} else {Before(u)}, map u | u in BraidNodes() :: if Rank(u) == 4 then {} else {After(u)}, {})
  }

  function Braid(): Scene {
    Scene(BraidRows(), set u | u in BraidNodes() && 1 <= Rank(u) <= 3, map u | u in BraidNodes() && Rank(u) > 0 :: Before(u))
  }

  lemma BraidNode(u: Id)
    ensures u in BraidNodes() <==> u.Gen? && u.n < 10
  {
  }

  lemma BraidStep(u: Id, v: Id)
    requires u in BraidNodes() && v in BraidNodes()
    ensures Rank(u) > 0 ==> Before(u) in BraidNodes() && Rank(Before(u)) + 1 == Rank(u)
    ensures Rank(v) < 4 ==> After(v) in BraidNodes() && Rank(After(v)) == Rank(v) + 1
    ensures Rank(u) > 0 && Before(u) == v <==> Rank(v) < 4 && After(v) == u
  {
    BraidNode(u);
    BraidNode(v);
    hide BraidNodes;
    BraidNode(Before(u));
    BraidNode(After(v));
  }

  lemma BraidKeys(g: Rows)
    requires g == BraidRows()
    ensures g.layer.Keys == g.pos.Keys == g.preds.Keys == g.succs.Keys == BraidNodes()
  {
    hide Rank, Side, Before, After, BraidNodes;
  }

  lemma BraidParts(g: Rows, u: Id)
    requires g == BraidRows() && u in BraidNodes()
    ensures u in g.pos && u in g.preds && u in g.succs && g.L(u) == Rank(u) && g.P(u) == Side(u)
    ensures g.preds[u] == (if Rank(u) == 0 then {} else {Before(u)}) && g.succs[u] == (if Rank(u) == 4 then {} else {After(u)})
  {
    hide Rank, Side, Before, After, BraidNodes;
  }

  lemma BraidPlaces(g: Rows)
    requires g == BraidRows()
    ensures |g.rows| == 5 && forall i :: 0 <= i < 5 ==> |g.rows[i]| == 2 && g.rows[i][0] == Gen(2 * i) && g.rows[i][1] == Gen(2 * i + 1)
    ensures forall i: nat, k: nat :: g.In(i, k) <==> i < 5 && k < 2
  {
    hide Rank, Side, Before, After, BraidNodes;
  }

  lemma BraidAt(i: nat, k: nat)
    requires i < 5 && k < 2
    ensures var u := Gen(2 * i + k); u in BraidNodes() && Rank(u) == i && Side(u) == k
  {
    BraidNode(Gen(2 * i + k));
  }

  lemma BraidPlaced(u: Id)
    requires u in BraidNodes()
    ensures Rank(u) < 5 && Side(u) < 2 && u == Gen(2 * Rank(u) + Side(u))
  {
    BraidNode(u);
  }

  lemma BraidPred(g: Rows, v: Id, u: Id)
    requires g == BraidRows() && v in BraidNodes() && v in g.preds && u in g.preds[v]
    ensures u in BraidNodes() && g.L(u) + 1 == g.L(v) && u in g.succs && v in g.succs[u]
  {
    hide *;
    BraidParts(g, v);
    BraidStep(v, v);
    BraidParts(g, u);
    BraidStep(v, u);
    BraidPlaced(v);
  }

  lemma BraidSucc(g: Rows, v: Id, u: Id)
    requires g == BraidRows() && v in BraidNodes() && v in g.succs && u in g.succs[v]
    ensures u in BraidNodes() && g.L(v) + 1 == g.L(u) && u in g.preds && v in g.preds[u]
  {
    hide *;
    BraidParts(g, v);
    BraidPlaced(v);
    BraidStep(v, v);
    BraidParts(g, u);
    BraidStep(u, v);
  }

  lemma BraidEdges(g: Rows)
    requires g == BraidRows()
    ensures forall v, u :: v in g.pos && v in g.preds && u in g.preds[v] ==> u in g.pos && g.L(u) + 1 == g.L(v)
    ensures forall v, u :: v in g.pos && v in g.succs && u in g.succs[v] ==> u in g.pos && g.L(v) + 1 == g.L(u)
  {
    hide *;
    BraidPos(g);
    forall v, u | v in g.pos && v in g.preds && u in g.preds[v] ensures u in g.pos && g.L(u) + 1 == g.L(v) {
      BraidPred(g, v, u);
    }
    forall v, u | v in g.pos && v in g.succs && u in g.succs[v] ensures u in g.pos && g.L(v) + 1 == g.L(u) {
      BraidSucc(g, v, u);
    }
  }

  lemma BraidPos(g: Rows)
    requires g == BraidRows()
    ensures forall v :: v in g.pos <==> v in BraidNodes()
  {
    hide Rank, Side, Before, After, BraidNodes;
  }

  lemma BraidKeyed(g: Rows)
    requires g == BraidRows()
    ensures g.Keyed()
  {
    hide Rank, Side, Before, After, BraidNodes;
  }

  lemma BraidMirrored(g: Rows)
    requires g == BraidRows()
    ensures g.Mirrored()
  {
    hide *;
    BraidKeys(g);
    forall v, u | v in g.preds && u in g.succs ensures u in g.preds[v] <==> v in g.succs[u] {
      if u in g.preds[v] {
        BraidPred(g, v, u);
      }
      if v in g.succs[u] {
        BraidSucc(g, u, v);
      }
    }
    MirroredMade(g);
  }

  lemma BraidInPlace(g: Rows)
    requires g == BraidRows()
    ensures forall i: nat, k: nat :: g.In(i, k) ==>
      i < |g.rows| && k < |g.rows[i]| && g.rows[i][k] in g.pos && g.L(g.rows[i][k]) == i && g.P(g.rows[i][k]) == k
    ensures forall v :: v in g.pos ==> g.In(g.L(v), g.P(v)) && g.L(v) < |g.rows| && g.P(v) < |g.rows[g.L(v)]| && g.rows[g.L(v)][g.P(v)] == v
  {
    hide *;
    BraidKeys(g);
    BraidPlaces(g);
    forall i: nat, k: nat | g.In(i, k) ensures g.rows[i][k] in g.pos && g.L(g.rows[i][k]) == i && g.P(g.rows[i][k]) == k {
      BraidAt(i, k);
      BraidParts(g, Gen(2 * i + k));
    }
    forall v | v in g.pos ensures g.In(g.L(v), g.P(v)) && g.rows[g.L(v)][g.P(v)] == v {
      BraidPlaced(v);
      BraidParts(g, v);
    }
  }

  lemma BraidValid(g: Rows)
    requires g == BraidRows()
    ensures g.Valid()
  {
    hide *;
    BraidKeyed(g);
    BraidEdges(g);
    BraidMirrored(g);
    BraidInPlace(g);
    RowsMade(g);
  }

  lemma BraidInner(s: Scene, u: Id)
    requires s == Braid() && u in BraidNodes()
    ensures s.Inner(u) <==> 2 <= Rank(u) <= 3
    ensures Rank(u) > 0 ==> u in s.first && s.first[u] == Before(u)
    ensures Rank(u) == 0 ==> u !in s.first
  {
    hide BraidRows, BraidNodes, Rank, Side, Before, After;
    if Rank(u) > 0 {
      BraidStep(u, u);
    }
  }

  lemma BraidIs(s: Scene)
    requires s == Braid()
    ensures s.g == BraidRows()
  {
  }

  /** In the third row, the left inner segment comes from the right and the right one from the left: the edge into the left node crosses the other
      segment and is not marked. */
  lemma CrossingMissed()
    ensures Braid().Valid() && Gen(4) in Braid().g.preds && Gen(3) in Braid().g.preds[Gen(4)] && Braid().g.L(Gen(4)) == 2
    ensures Braid().CrossesInner(Gen(4), Gen(3), Gen(5)) && !Braid().Marked(Gen(4), Gen(3))
  {
    hide *;
    var s := Braid();
    BraidIs(s);
    BraidScene(s);
    BraidNodesFour(s);
    LeftmostUnmarked(s, Gen(4), Gen(3), Gen(5));
  }

  lemma BraidScene(s: Scene)
    requires s == Braid() && s.g == BraidRows()
    ensures s.Valid()
  {
    hide *;
    BraidKeys(s.g);
    BraidValid(s.g);
    forall w | w in s.g.pos ensures w in s.g.preds && if s.g.preds[w] == {} then w !in s.first else w in s.first && s.first[w] in s.g.preds[w] {
      BraidParts(s.g, w);
      BraidInner(s, w);
    }
    SceneMade(s);
  }

  /** The nodes of the second and the third row. */
  lemma BraidNodesFour(s: Scene)
    requires s == Braid() && s.g == BraidRows()
    ensures Gen(4) in s.g.pos && Gen(5) in s.g.pos && s.g.L(Gen(4)) == s.g.L(Gen(5)) == 2 && s.Inner(Gen(4)) && s.Inner(Gen(5))
    ensures s.g.P(Gen(4)) == 0 && s.g.P(Gen(5)) == 1 && s.Upper(Gen(4)) == s.g.P(Gen(3)) == 1 && s.Upper(Gen(5)) == 0
    ensures Gen(4) in s.g.preds && Gen(3) in s.g.preds[Gen(4)]
  {
    hide *;
    BraidAt(1, 0);
    BraidAt(1, 1);
    BraidAt(2, 0);
    BraidAt(2, 1);
    BraidParts(s.g, Gen(2));
    BraidParts(s.g, Gen(3));
    BraidParts(s.g, Gen(4));
    BraidParts(s.g, Gen(5));
    BraidInner(s, Gen(4));
    BraidInner(s, Gen(5));
    BraidCross();
    UpperIs(s, Gen(4));
    UpperIs(s, Gen(5));
  }

  lemma BraidCross()
    ensures Before(Gen(4)) == Gen(3) && Before(Gen(5)) == Gen(2)
  {
  }

  lemma UpperIs(s: Scene, u: Id)
    requires u in s.first
    ensures s.Upper(u) == s.g.P(s.first[u])
  {
  }

  /** The leftmost of two inner segments that cross each other is not marked. */
  lemma LeftmostUnmarked(s: Scene, w: Id, v: Id, x: Id)
    requires s.Valid() && w in s.g.pos && x in s.g.pos && s.g.L(w) == s.g.L(x) && s.Inner(w) && s.Inner(x)
    requires s.g.P(w) == 0 < s.g.P(x) && s.Upper(w) == s.g.P(v) > s.Upper(x)
    ensures s.CrossesInner(w, v, x) && !s.Marked(w, v)
  {
    PlaceIs(s, w);
    hide Scene.InnerAt, Scene.UpperAt, Scene.Inner, Scene.Upper, Scene.Valid;
    var i := s.g.L(w);
    forall e: nat | s.NextFrom(i, 0, e) ensures e == 0 {
    }
  }

  // ---------- a self loop on a source ----------

  const X := Named("x")
  const P := Named("p")
  const D := Named("d")
  const U := Named("u")
  const Y := Named("y")
  const Q := Named("q")
  const Z := Named("z")

  const NODES := {X, P, D, U, Y, Q, Z}
  const ROWS := [[X, P], [D, U, Y], [Q, Z]]
  const LAYER: map<Id, nat> := map[X := 0, P := 0, D := 1, U := 1, Y := 1, Q := 2, Z := 2]
  const POS: map<Id, nat> := map[X := 0, P := 1, D := 0, U := 1, Y := 2, Q := 0, Z := 1]
  const PREDS := map[X := {}, P := {}, D := {P}, U := {X}, Y := {X}, Q := {D}, Z := {U, Y}]
  const SUCCS := map[X := {U, Y}, P := {D}, D := {Q}, U := {Z}, Y := {Z}, Q := {}, Z := {}]

  /** A self loop at u, which has become the dummies x, y and z, and an edge from p by way of the dummy d to q. */
  function LoopScene(): Scene {
    Scene(Rows(ROWS, LAYER, POS, PREDS, SUCCS, {}), {X, Y, Z, D}, map[D := P, U := X, Y := X, Q := D, Z := Y])
  }

  lemma LoopKeys()
    ensures LAYER.Keys == NODES && POS.Keys == NODES
  {
  }

  lemma LoopEdgeKeys()
    ensures PREDS.Keys == NODES && SUCCS.Keys == NODES
  {
  }

  lemma LoopPlaces(g: Rows)
    requires g.rows == ROWS && g.layer == LAYER && g.pos == POS
    ensures forall i: nat, k: nat :: g.In(i, k) ==> g.rows[i][k] in g.pos && g.L(g.rows[i][k]) == i && g.P(g.rows[i][k]) == k
  {
    assert ROWS[0] == [X, P] && ROWS[1] == [D, U, Y] && ROWS[2] == [Q, Z];
    forall i: nat, k: nat | g.In(i, k) ensures g.rows[i][k] in g.pos && g.L(g.rows[i][k]) == i && g.P(g.rows[i][k]) == k {
      assert i == 0 || i == 1 || i == 2;
      assert k == 0 || k == 1 || k == 2;
    }
  }

  lemma LoopNodes(g: Rows, v: Id)
    requires g.rows == ROWS && g.layer == LAYER && g.pos == POS && v in NODES
    ensures g.In(g.L(v), g.P(v)) && g.rows[g.L(v)][g.P(v)] == v
  {
    assert ROWS[0] == [X, P] && ROWS[1] == [D, U, Y] && ROWS[2] == [Q, Z];
  }

  lemma LoopPreds(g: Rows, v: Id, u: Id)
    requires g.layer == LAYER && v in NODES && v in PREDS && u in PREDS[v]
    ensures u in NODES && g.L(u) + 1 == g.L(v)
  {
  }

  lemma LoopSuccs(g: Rows, v: Id, u: Id)
    requires g.layer == LAYER && v in NODES && v in SUCCS && u in SUCCS[v]
    ensures u in NODES && g.L(v) + 1 == g.L(u)
  {
  }

  lemma LoopMirrored(v: Id, u: Id)
    requires v in PREDS && u in SUCCS
    ensures u in PREDS[v] <==> v in SUCCS[u]
  {
  }

  lemma LoopEdges(g: Rows)
    requires g.layer == LAYER && g.pos == POS && g.preds == PREDS && g.succs == SUCCS
    ensures forall v, u :: v in g.pos && v in g.preds && u in g.preds[v] ==> u in g.pos && g.L(u) + 1 == g.L(v)
    ensures forall v, u :: v in g.pos && v in g.succs && u in g.succs[v] ==> u in g.pos && g.L(v) + 1 == g.L(u)
  {
    hide *;
    LoopKeys();
    forall v, u | v in g.pos && v in g.preds && u in g.preds[v] ensures u in g.pos && g.L(u) + 1 == g.L(v) {
      LoopPreds(g, v, u);
    }
    forall v, u | v in g.pos && v in g.succs && u in g.succs[v] ensures u in g.pos && g.L(v) + 1 == g.L(u) {
      LoopSuccs(g, v, u);
    }
  }

  lemma LoopTwoSides(g: Rows)
    requires g.preds == PREDS && g.succs == SUCCS
    ensures g.Mirrored()
  {
    hide *;
    forall v, u | v in PREDS && u in SUCCS ensures u in PREDS[v] <==> v in SUCCS[u] {
      LoopMirrored(v, u);
    }
    MirroredMade(g);
  }

  lemma LoopSpots(g: Rows)
    requires g.rows == ROWS && g.layer == LAYER && g.pos == POS
    ensures forall v :: v in g.pos ==> g.In(g.L(v), g.P(v)) && g.L(v) < |g.rows| && g.P(v) < |g.rows[g.L(v)]| && g.rows[g.L(v)][g.P(v)] == v
  {
    hide *;
    LoopKeys();
    InRows(g);
    forall v | v in g.pos ensures g.In(g.L(v), g.P(v)) && g.L(v) < |g.rows| && g.P(v) < |g.rows[g.L(v)]| && g.rows[g.L(v)][g.P(v)] == v {
      LoopNodes(g, v);
    }
  }

  lemma LoopKeyed(g: Rows)
    requires g.layer == LAYER && g.pos == POS && g.preds == PREDS && g.succs == SUCCS
    ensures g.Keyed()
  {
    hide *;
    LoopKeys();
    LoopEdgeKeys();
    KeyedMade(g);
  }

  lemma LoopValid(g: Rows)
    requires g.rows == ROWS && g.layer == LAYER && g.pos == POS && g.preds == PREDS && g.succs == SUCCS
    ensures g.Valid()
  {
    hide *;
    LoopKeyed(g);
    LoopPlaces(g);
    InRows(g);
    LoopSpots(g);
    LoopEdges(g);
    LoopTwoSides(g);
    RowsMade(g);
  }

  lemma KeyedMade(g: Rows)
    requires g.layer.Keys == g.pos.Keys == g.preds.Keys == g.succs.Keys
    ensures g.Keyed()
  {
  }

  lemma MirroredMade(g: Rows)
    requires forall v, u :: v in g.preds && u in g.succs ==> (u in g.preds[v] <==> v in g.succs[u])
    ensures g.Mirrored()
  {
  }

  lemma LoopFirst(s: Scene)
    requires s.g.pos.Keys == NODES && s.g.preds == PREDS && s.first == map[D := P, U := X, Y := X, Q := D, Z := Y]
    ensures forall w :: w in s.g.pos ==> w in s.g.preds && if s.g.preds[w] == {} then w !in s.first else w in s.first && s.first[w] in s.g.preds[w]
  {
  }

  lemma LoopParts()
    ensures var s := LoopScene(); s.g.rows == ROWS && s.g.layer == LAYER && s.g.pos == POS && s.g.preds == PREDS && s.g.succs == SUCCS
    ensures LoopScene().dummy == {X, Y, Z, D} && LoopScene().first == map[D := P, U := X, Y := X, Q := D, Z := Y]
  {
  }

  lemma LoopCrossing(s: Scene)
    requires s.g.layer == LAYER && s.g.pos == POS && s.g.preds == PREDS && s.dummy == {X, Y, Z, D}
    requires s.first == map[D := P, U := X, Y := X, Q := D, Z := Y]
    ensures D in s.g.pos && D in s.g.preds && P in s.g.preds[D] && s.g.L(D) == 1 && s.CrossesInner(D, P, Y) && !s.Marked(D, P)
  {
  }

  /** The edge from p crosses the inner segment from x to y, between the first two rows, and is not marked. */
  lemma FirstRowMissed()
    ensures LoopScene().Valid() && !LoopScene().FirstFree()
    ensures D in LoopScene().g.preds && P in LoopScene().g.preds[D] && LoopScene().CrossesInner(D, P, Y) && !LoopScene().Marked(D, P)
  {
    hide *;
    var s := LoopScene();
    LoopParts();
    LoopValid(s.g);
    LoopKeys();
    LoopFirst(s);
    SceneMade(s);
    LoopCrossing(s);
    NotFree(s, D, P, Y);
  }

  lemma NotFree(s: Scene, w: Id, v: Id, x: Id)
    requires w in s.g.pos && w in s.g.preds && s.g.L(w) == 1 && v in s.g.preds[w] && s.CrossesInner(w, v, x)
    ensures !s.FirstFree()
  {
    hide Scene.CrossesInner;
  }
}
