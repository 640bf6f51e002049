/** Brandes and Koepf's vertical alignment: nodes of consecutive layers are chained into blocks
    along median edges, and the chains never cross. */
module Alignments {
  import opened Base
  import opened Digraphs

  /** A layered graph seen from one direction: `related` gives each node's neighbours in the
      previous layer, `conflicts` the pairs that must not be aligned. */
  datatype Sheet = Sheet(layering: seq<seq<Id>>, layer: map<Id, nat>, pos: map<Id, nat>,
                         related: map<Id, set<Id>>, conflicts: set<(Id, Id)>) {
    function L(v: Id): nat {
      if v in layer then layer[v] else 0
    }

    function P(v: Id): nat {
      if v in pos then pos[v] else 0
    }

    ghost predicate In(i: nat, k: nat) {
      i < |layering| && k < |layering[i]|
    }

    /** Each node stands in one place, and its neighbours stand in the layer before. */
    ghost predicate Valid() {
      && layer.Keys == pos.Keys == related.Keys
      && (forall i: nat, k: nat :: In(i, k) ==> layering[i][k] in pos && L(layering[i][k]) == i && P(layering[i][k]) == k)
      && (forall v :: v in pos ==> In(L(v), P(v)) && layering[L(v)][P(v)] == v)
      && (forall v, u :: v in pos && u in related[v] ==> u in pos && L(u) + 1 == L(v))
    }

    ghost predicate Sorted(s: seq<Id>) {
      forall i, j :: 0 <= i < j < |s| ==> P(s[i]) <= P(s[j])
    }

    /** u is a middle one of v's neighbours, in the order of their positions. */
    ghost predicate Median(v: Id, u: Id) {
      v in related &&
      exists s :: Lists(s, related[v]) && Sorted(s) && |s| > 0 && (s[(|s| - 1) / 2] == u || s[|s| / 2] == u)
    }

    predicate Conflict(u: Id, v: Id) {
      (u, v) in conflicts || (v, u) in conflicts
    }

    /** `up` links nodes to a median neighbour above, without conflicts, and no two links cross or
        share an end. */
    ghost predicate Linked(up: map<Id, Id>) {
      && (forall v :: v in up ==>
            v in pos && up[v] in pos && L(up[v]) + 1 == L(v) && Median(v, up[v]) && !Conflict(up[v], v))
      && (forall v, w :: v in up && w in up && L(v) == L(w) && P(v) < P(w) ==> P(up[v]) < P(up[w]))
    }

    /** root is the top of each chain. */
    ghost predicate Tops(up: map<Id, Id>, root: map<Id, Id>) {
      && root.Keys == pos.Keys
      && (forall v :: v in pos && v !in up ==> root[v] == v)
      && (forall v :: v in up && v in pos && up[v] in pos ==> root[v] == root[up[v]])
    }

    /** align is the next node below, and at the bottom the root. */
    ghost predicate Rings(up: map<Id, Id>, root: map<Id, Id>, align: map<Id, Id>) {
      && align.Keys == pos.Keys <= root.Keys
      && (forall v :: v in up && up[v] in pos ==> align[up[v]] == v)
      && (forall u :: u in pos && Lowest(up, u) ==> align[u] == root[u])
    }

    ghost predicate Blocks(up: map<Id, Id>, root: map<Id, Id>, align: map<Id, Id>) {
      Tops(up, root) && Rings(up, root, align)
    }

    ghost predicate Lowest(up: map<Id, Id>, u: Id) {
      forall v :: v in up ==> up[v] != u
    }

    /** The medians to the left of the one that v is linked to were in conflict or already passed; if v was left alone, all were. */
    ghost predicate Greedy(up: map<Id, Id>, v: Id) {
      forall u :: Median(v, u) && (v in up ==> P(u) < P(up[v])) ==> Conflict(u, v) || Passed(up, v, u)
    }

    /** The medians to the left of u are in conflict, or are not to the right of prevIdx. */
    ghost predicate FirstFree(v: Id, u: Id, prevIdx: int) {
      forall m :: Median(v, m) && P(m) < P(u) ==> Conflict(m, v) || P(m) <= prevIdx
    }

    /** Some node before v in its layer is linked to u or beyond. */
    ghost predicate Passed(up: map<Id, Id>, v: Id, u: Id) {
      exists w :: w in up && L(w) == L(v) && P(w) < P(v) && P(u) <= P(up[w])
    }

    /** The place (i, k) comes before v. */
    predicate Before(v: Id, i: nat, k: nat) {
      L(v) < i || (L(v) == i && P(v) < k)
    }

    /** The places before (i, k) have been gone through. */
    ghost predicate Reached(up: map<Id, Id>, i: nat, k: nat) {
      && (forall v :: v in up ==> Before(v, i, k))
      && (forall v :: v in pos && Before(v, i, k) ==> Greedy(up, v))
    }

    /** prevIdx is where the last link of layer i before place k ends, or -1. */
    ghost predicate LastLink(up: map<Id, Id>, i: nat, k: nat, prevIdx: int) {
      && (forall w :: w in up && L(w) == i && P(w) < k ==> P(up[w]) <= prevIdx)
      && (prevIdx >= 0 ==> exists w :: w in up && L(w) == i && P(w) < k && P(up[w]) == prevIdx)
    }
  }

  /** v and u are both still free for a link between them. */
  lemma Free(s: Sheet, up: map<Id, Id>, i: nat, k: nat, prevIdx: int, v: Id, u: Id)
    requires s.Valid() && s.Linked(up) && s.Reached(up, i, k) && s.LastLink(up, i, k, prevIdx)
    requires s.In(i, k) && s.layering[i][k] == v && u in s.pos && u in s.related[v] && prevIdx < s.P(u)
    ensures v !in up && v in s.pos && s.L(v) == i && s.P(v) == k && s.L(u) + 1 == i
    ensures s.Lowest(up, u) && s.Lowest(up, v)
  {
    hide Sheet.Median, Sheet.Greedy;
  }

  lemma LinkLinked(s: Sheet, up: map<Id, Id>, i: nat, k: nat, prevIdx: int, v: Id, u: Id)
    requires s.Linked(up) && s.LastLink(up, i, k, prevIdx) && (forall x :: x in up ==> s.Before(x, i, k))
    requires v in s.pos && u in s.pos && s.L(v) == i && s.P(v) == k && s.L(u) + 1 == i && v !in up
    requires s.Median(v, u) && !s.Conflict(u, v) && prevIdx < s.P(u)
    ensures s.Linked(up[v := u])
  {
    hide Sheet.Median, Sheet.Conflict;
  }

  lemma LowestLinked(s: Sheet, up: map<Id, Id>, v: Id, u: Id)
    requires v !in up
    ensures forall x :: s.Lowest(up[v := u], x) <==> s.Lowest(up, x) && x != u
  {
    var up' := up[v := u];
    assert up'[v] == u;
    forall x | s.Lowest(up', x) ensures s.Lowest(up, x) {
      forall y | y in up ensures up[y] != x {
        assert y in up' && up'[y] == up[y];
      }
    }
  }

  lemma NoneBelow(s: Sheet, up: map<Id, Id>, u: Id)
    requires s.Lowest(up, u)
    ensures forall x :: x in up ==> up[x] != u
  {
  }

  lemma LinkTops(s: Sheet, up: map<Id, Id>, root: map<Id, Id>, v: Id, u: Id)
    requires s.Tops(up, root) && v in s.pos && u in s.pos && v !in up && u != v
    requires forall x :: x in up ==> x in s.pos && up[x] in s.pos && up[x] != v
    ensures root[v] == v && s.Tops(up[v := u], root[v := root[u]])
  {
  }

  lemma LinkRings(s: Sheet, up: map<Id, Id>, root: map<Id, Id>, align: map<Id, Id>, v: Id, u: Id)
    requires s.Rings(up, root, align) && v in s.pos && u in s.pos && v !in up && u != v
    requires s.Lowest(up, u) && s.Lowest(up, v) && forall x :: x in up ==> up[x] in s.pos && up[x] != u && up[x] != v
    ensures align[v] == root[v] && align[u] == root[u]
    ensures s.Rings(up[v := u], root[v := root[u]], align[u := v][v := root[u]])
  {
    hide Sheet.Lowest;
    LowestLinked(s, up, v, u);
  }

  lemma LinkBlocks(s: Sheet, up: map<Id, Id>, root: map<Id, Id>, align: map<Id, Id>, v: Id, u: Id)
    requires s.Blocks(up, root, align) && v in s.pos && u in s.pos && v !in up && u != v
    requires s.Lowest(up, u) && s.Lowest(up, v) && forall x :: x in up ==> x in s.pos && up[x] in s.pos
    ensures root.Keys == align.Keys == s.pos.Keys && root[v] == v && align[v] == v && align[u] == root[u]
    ensures s.Blocks(up[v := u], root[v := root[u]], align[u := v][v := root[u]])
  {
    hide Sheet.Lowest;
    NoneBelow(s, up, u);
    NoneBelow(s, up, v);
    LinkTops(s, up, root, v, u);
    LinkRings(s, up, root, align, v, u);
  }

  // ---------- the algorithm ----------

  /** The entries of us in the order of their positions. */
  method SortByPosition(s: Sheet, us: set<Id>) returns (q: seq<Id>)
    ensures Lists(q, us) && s.Sorted(q)
  {
    q := [];
    var rest := us;
    while rest != {}
      invariant rest <= us && Lists(q, us - rest) && s.Sorted(q)
      invariant forall x, y :: x in q && y in rest ==> s.P(x) <= s.P(y)
      decreases rest
    {
      var m :| m in rest;
      var left := rest - {m};
      while left != {}
        invariant m in rest && left <= rest
        invariant forall y :: y in rest - left ==> s.P(m) <= s.P(y)
        decreases left
      {
        var y :| y in left;
        if s.P(y) < s.P(m) {
          m := y;
        }
        left := left - {y};
      }
      AppendLast(s, q, us - rest, m);
      q := q + [m];
      rest := rest - {m};
      assert us - rest == (us - (rest + {m})) + {m};
    }
    assert us - rest == us;
  }

  lemma AppendLast(s: Sheet, q: seq<Id>, us: set<Id>, m: Id)
    requires Lists(q, us) && s.Sorted(q) && m !in us && forall x :: x in q ==> s.P(x) <= s.P(m)
    ensures Lists(q + [m], us + {m}) && s.Sorted(q + [m])
  {
  }

  /** The state before place (i, k) is looked at. */
  ghost predicate Aligning(s: Sheet, up: map<Id, Id>, root: map<Id, Id>, align: map<Id, Id>, i: nat, k: nat, prevIdx: int) {
    s.Valid() && s.Linked(up) && s.Blocks(up, root, align) && s.Reached(up, i, k) && s.LastLink(up, i, k, prevIdx)
  }

  /** Links v, the node at (i, k), to the first of its medians, u, that is neither in conflict nor passed. */
  method Link(s: Sheet, ghost up: map<Id, Id>, root: map<Id, Id>, align: map<Id, Id>, ghost i: nat, ghost k: nat,
              ghost prevIdx: int, v: Id, u: Id)
    returns (ghost up': map<Id, Id>, root': map<Id, Id>, align': map<Id, Id>)
    requires Aligning(s, up, root, align, i, k, prevIdx) && s.In(i, k) && s.layering[i][k] == v
    requires v in s.related && u in s.related[v] && s.Median(v, u) && v in root && v in align && u in root && u in s.pos
    requires !s.Conflict(u, v) && prevIdx < s.P(u) && s.FirstFree(v, u, prevIdx)
    ensures Aligning(s, up', root', align', i, k + 1, s.P(u)) && v in align' && align'[v] != v
  {
    hide *;
    LinkNow(s, up, root, align, i, k, prevIdx, v, u);
    up' := up[v := u];
    align' := align[u := v];
    root' := root[v := root[u]];
    align' := align'[v := root'[v]];
  }

  lemma Untouched(s: Sheet, up: map<Id, Id>, root: map<Id, Id>, align: map<Id, Id>, i: nat, k: nat, prevIdx: int, v: Id)
    requires Aligning(s, up, root, align, i, k, prevIdx) && s.In(i, k) && s.layering[i][k] == v
    ensures v in align && align[v] == v && v !in up
  {
    hide Sheet.Median, Sheet.Greedy;
    assert s.Lowest(up, v);
  }

  lemma LinkNow(s: Sheet, up: map<Id, Id>, root: map<Id, Id>, align: map<Id, Id>, i: nat, k: nat, prevIdx: int, v: Id, u: Id)
    requires Aligning(s, up, root, align, i, k, prevIdx) && s.In(i, k) && s.layering[i][k] == v
    requires v in s.related && u in s.related[v] && s.Median(v, u) && u in s.pos && u in root && !s.Conflict(u, v) && prevIdx < s.P(u)
    requires s.FirstFree(v, u, prevIdx)
    ensures Aligning(s, up[v := u], root[v := root[u]], align[u := v][v := root[u]], i, k + 1, s.P(u))
    ensures root[u] != v
  {
    hide *;
    AligningParts(s, up, root, align, i, k, prevIdx);
    Free(s, up, i, k, prevIdx, v, u);
    LinksPlaced(s, up, i, k);
    LinkLinked(s, up, i, k, prevIdx, v, u);
    LinkBlocks(s, up, root, align, v, u);
    TopOf(s, up, root, align);
    RootAbove(s, up, root, u);
    AdvanceLinked(s, up, i, k, prevIdx, v, u);
    AligningMade(s, up[v := u], root[v := root[u]], align[u := v][v := root[u]], i, k + 1, s.P(u));
  }

  lemma TopOf(s: Sheet, up: map<Id, Id>, root: map<Id, Id>, align: map<Id, Id>)
    requires s.Blocks(up, root, align)
    ensures s.Tops(up, root) && s.Rings(up, root, align) && root.Keys == align.Keys == s.pos.Keys
  {
    hide Sheet.Lowest;
  }

  /** A root is in no later layer than the nodes below it, and heads its own chain. */
  lemma {:induction false} RootAbove(s: Sheet, up: map<Id, Id>, root: map<Id, Id>, x: Id)
    requires s.Linked(up) && s.Tops(up, root) && x in s.pos
    ensures x in root && s.L(root[x]) <= s.L(x)
    ensures root[x] in s.pos && root[x] !in up && root[root[x]] == root[x]
    decreases s.L(x)
  {
    hide Sheet.Median, Sheet.Conflict;
    if x in up {
      RootAbove(s, up, root, up[x]);
    }
  }

  lemma AdvanceLinked(s: Sheet, up: map<Id, Id>, i: nat, k: nat, prevIdx: int, v: Id, u: Id)
    requires s.Valid() && s.Linked(up) && s.Reached(up, i, k) && s.LastLink(up, i, k, prevIdx)
    requires s.In(i, k) && s.layering[i][k] == v && u in s.pos && v !in up && prevIdx < s.P(u) && s.FirstFree(v, u, prevIdx)
    ensures s.Reached(up[v := u], i, k + 1) && s.LastLink(up[v := u], i, k + 1, s.P(u))
  {
    hide Sheet.Median, Sheet.Conflict, Sheet.Greedy, Sheet.Linked, Sheet.FirstFree;
    var up' := up[v := u];
    forall x | x in s.pos && s.Before(x, i, k + 1) ensures s.Greedy(up', x) {
      if x == v {
        LinkGreedy(s, up, i, k, prevIdx, v, u);
      } else {
        assert s.Before(x, i, k);
        StillGreedy(s, up, v, u, x);
      }
    }
    assert v in up' && s.L(v) == i && s.P(v) == k && up'[v] == u;
  }

  lemma LinkGreedy(s: Sheet, up: map<Id, Id>, i: nat, k: nat, prevIdx: int, v: Id, u: Id)
    requires s.LastLink(up, i, k, prevIdx) && s.L(v) == i && s.P(v) == k && v !in up && s.FirstFree(v, u, prevIdx)
    ensures s.Greedy(up[v := u], v)
  {
    hide Sheet.Median, Sheet.Conflict;
    var up' := up[v := u];
    forall m | s.Median(v, m) && s.P(m) < s.P(up'[v]) ensures s.Conflict(m, v) || s.Passed(up', v, m) {
      if !s.Conflict(m, v) {
        assert s.P(m) <= prevIdx;
        var w :| w in up && s.L(w) == i && s.P(w) < k && s.P(up[w]) == prevIdx;
        assert w in up' && up'[w] == up[w];
      }
    }
  }

  lemma StillGreedy(s: Sheet, up: map<Id, Id>, v: Id, u: Id, x: Id)
    requires v !in up && x != v && s.Greedy(up, x)
    ensures s.Greedy(up[v := u], x)
  {
    hide Sheet.Median, Sheet.Conflict;
    var up' := up[v := u];
    forall y | s.Passed(up, x, y) ensures s.Passed(up', x, y) {
      var w :| w in up && s.L(w) == s.L(x) && s.P(w) < s.P(x) && s.P(y) <= s.P(up[w]);
      assert w in up' && up'[w] == up[w];
    }
    hide Sheet.Passed;
  }

  lemma AligningMade(s: Sheet, up: map<Id, Id>, root: map<Id, Id>, align: map<Id, Id>, i: nat, k: nat, prevIdx: int)
    requires s.Valid() && s.Linked(up) && s.Blocks(up, root, align) && s.Reached(up, i, k) && s.LastLink(up, i, k, prevIdx)
    ensures Aligning(s, up, root, align, i, k, prevIdx)
  {
    hide Sheet.Valid, Sheet.Linked, Sheet.Blocks, Sheet.Reached, Sheet.LastLink;
  }

  /** In Valid sheets a node's neighbours have one sorted order, so the medians can be read off it. */
  lemma MedianAt(s: Sheet, v: Id, q: seq<Id>, j: nat)
    requires v in s.related && Lists(q, s.related[v]) && s.Sorted(q) && |q| > 0 && (|q| - 1) / 2 <= j <= |q| / 2
    ensures j < |q| && s.Median(v, q[j])
  {
    assert j == (|q| - 1) / 2 || j == |q| / 2;
  }

  lemma {:induction false} SortedOnce(s: Sheet, us: set<Id>, q: seq<Id>, q': seq<Id>)
    requires Lists(q, us) && Lists(q', us) && s.Sorted(q) && s.Sorted(q')
    requires forall x, y :: x in us && y in us && s.P(x) == s.P(y) ==> x == y
    ensures q == q'
    decreases |q|
  {
    hide *;
    ListsSize(q, us);
    ListsSize(q', us);
    if |q| > 0 {
      AllBefore(s, us, q);
      AllBefore(s, us, q');
      var m := q[|q| - 1];
      assert m == q'[|q'| - 1];
      AllButLast(s, us, q);
      AllButLast(s, us, q');
      SortedOnce(s, us - {m}, q[..|q| - 1], q'[..|q'| - 1]);
      PrefixAndLast(q, q');
    }
  }

  lemma PrefixAndLast(q: seq<Id>, q': seq<Id>)
    requires |q| == |q'| > 0 && q[..|q| - 1] == q'[..|q'| - 1] && q[|q| - 1] == q'[|q'| - 1]
    ensures q == q'
  {
    assert q == q[..|q| - 1] + [q[|q| - 1]];
    assert q' == q'[..|q'| - 1] + [q'[|q'| - 1]];
  }

  lemma AllBefore(s: Sheet, us: set<Id>, q: seq<Id>)
    requires Lists(q, us) && s.Sorted(q) && |q| > 0
    ensures q[|q| - 1] in us && forall x :: x in us ==> s.P(x) <= s.P(q[|q| - 1])
  {
    forall x | x in us ensures s.P(x) <= s.P(q[|q| - 1]) {
      var i :| 0 <= i < |q| && q[i] == x;
    }
  }

  lemma AllButLast(s: Sheet, us: set<Id>, q: seq<Id>)
    requires Lists(q, us) && s.Sorted(q) && |q| > 0
    ensures Lists(q[..|q| - 1], us - {q[|q| - 1]}) && s.Sorted(q[..|q| - 1])
  {
    hide Sheet.P;
    forall x | x in us && x != q[|q| - 1] ensures x in q[..|q| - 1] {
      var i :| 0 <= i < |q| && q[i] == x;
      assert q[..|q| - 1][i] == x;
    }
  }

  /** v stays alone: its medians are in conflict or passed. */
  lemma AdvanceAlone(s: Sheet, up: map<Id, Id>, root: map<Id, Id>, align: map<Id, Id>, i: nat, k: nat, prevIdx: int, v: Id, q: seq<Id>)
    requires Aligning(s, up, root, align, i, k, prevIdx) && s.In(i, k) && s.layering[i][k] == v
    requires v in s.related && Lists(q, s.related[v]) && s.Sorted(q) && Rejected(s, v, q, |q| / 2 + 1, prevIdx)
    ensures Aligning(s, up, root, align, i, k + 1, prevIdx)
  {
    hide *;
    AligningParts(s, up, root, align, i, k, prevIdx);
    LonelyMedians(s, up, i, k, prevIdx, v, q);
    AdvancePast(s, up, i, k, prevIdx, v);
    AligningMade(s, up, root, align, i, k + 1, prevIdx);
  }

  /** The medians of v before the j-th neighbour were turned down. */
  ghost predicate Rejected(s: Sheet, v: Id, q: seq<Id>, j: nat, prevIdx: int) {
    forall h :: 0 <= h < |q| && (|q| - 1) / 2 <= h < j ==> s.Conflict(q[h], v) || s.P(q[h]) <= prevIdx
  }

  lemma LonelyMedians(s: Sheet, up: map<Id, Id>, i: nat, k: nat, prevIdx: int, v: Id, q: seq<Id>)
    requires s.Valid() && s.In(i, k) && s.layering[i][k] == v && s.LastLink(up, i, k, prevIdx)
    requires v in s.related && Lists(q, s.related[v]) && s.Sorted(q) && Rejected(s, v, q, |q| / 2 + 1, prevIdx)
    ensures s.Greedy(up, v)
  {
    hide Sheet.Conflict, Lists, Sheet.Sorted;
    PlacesDiffer(s, v);
    forall u | s.Median(v, u) ensures s.Conflict(u, v) || s.Passed(up, v, u) {
      var q' :| Lists(q', s.related[v]) && s.Sorted(q') && |q'| > 0 && (q'[(|q'| - 1) / 2] == u || q'[|q'| / 2] == u);
      SortedOnce(s, s.related[v], q, q');
      if !s.Conflict(u, v) {
        assert s.P(u) <= prevIdx;
      }
    }
  }

  /** The medians to the left of the j-th neighbour come before it in the sorted list. */
  lemma EarlierMedians(s: Sheet, v: Id, q: seq<Id>, j: nat, prevIdx: int)
    requires s.Valid() && v in s.related && Lists(q, s.related[v]) && s.Sorted(q) && j < |q| && Rejected(s, v, q, j, prevIdx)
    ensures s.FirstFree(v, q[j], prevIdx)
  {
    hide Sheet.Conflict, Lists, Sheet.Valid;
    PlacesDiffer(s, v);
    forall m | s.Median(v, m) && s.P(m) < s.P(q[j]) ensures s.Conflict(m, v) || s.P(m) <= prevIdx {
      var q' :| Lists(q', s.related[v]) && s.Sorted(q') && |q'| > 0 && (q'[(|q'| - 1) / 2] == m || q'[|q'| / 2] == m);
      SortedOnce(s, s.related[v], q, q');
      var h := if q[(|q| - 1) / 2] == m then (|q| - 1) / 2 else |q| / 2;
      assert q[h] == m && h < j;
    }
  }

  lemma PlacesDiffer(s: Sheet, v: Id)
    requires s.Valid() && v in s.related
    ensures forall x, y :: x in s.related[v] && y in s.related[v] && s.P(x) == s.P(y) ==> x == y
  {
  }

  lemma AdvancePast(s: Sheet, up: map<Id, Id>, i: nat, k: nat, prevIdx: int, v: Id)
    requires s.Valid() && s.Reached(up, i, k) && s.LastLink(up, i, k, prevIdx)
    requires s.In(i, k) && s.layering[i][k] == v && s.Greedy(up, v)
    ensures s.Reached(up, i, k + 1) && s.LastLink(up, i, k + 1, prevIdx)
  {
    hide Sheet.Greedy;
  }

  /** One node of the scan: either it has been linked, or nothing changed and the medians so far
      were turned down. */
  ghost predicate Trying(s: Sheet, up: map<Id, Id>, root: map<Id, Id>, align: map<Id, Id>, prevIdx: int,
                         up': map<Id, Id>, root': map<Id, Id>, align': map<Id, Id>, prevIdx': int,
                         i: nat, k: nat, v: Id, q: seq<Id>, j: nat) {
    v in align' &&
    if align'[v] == v then up' == up && root' == root && align' == align && prevIdx' == prevIdx && Rejected(s, v, q, j, prevIdx)
    else Aligning(s, up', root', align', i, k + 1, prevIdx')
  }

  /** One step of the scan: v, the node at (i, k), is linked to the first of its medians that is
      neither in conflict nor passed, if there is one. */
  method AlignNode(s: Sheet, ghost up: map<Id, Id>, root: map<Id, Id>, align: map<Id, Id>, ghost i: nat, ghost k: nat,
                   prevIdx: int, v: Id)
    returns (ghost up': map<Id, Id>, root': map<Id, Id>, align': map<Id, Id>, prevIdx': int)
    requires Aligning(s, up, root, align, i, k, prevIdx) && s.In(i, k) && s.layering[i][k] == v
    ensures Aligning(s, up', root', align', i, k + 1, prevIdx')
  {
    hide *;
    up', root', align', prevIdx' := up, root, align, prevIdx;
    Standing(s, up, root, align, i, k, prevIdx, v);
    var q := SortByPosition(s, s.related[v]);
    var j := if |q| == 0 then 0 else (|q| - 1) / 2;
    FirstTry(s, up, root, align, i, k, prevIdx, v, q, j);
    while |q| > 0 && j <= |q| / 2
      invariant j <= |q| / 2 + 1 && (|q| > 0 ==> (|q| - 1) / 2 <= j)
      invariant |q| == 0 ==> j == 0
      invariant Trying(s, up, root, align, prevIdx, up', root', align', prevIdx', i, k, v, q, j)
    {
      MedianAt(s, v, q, j);
      NeighbourPlaced(s, up, root, align, i, k, prevIdx, v, q, j);
      TriedSo(s, up, root, align, prevIdx, up', root', align', prevIdx', i, k, v, q, j);
      if align'[v] == v {
        if !s.Conflict(q[j], v) && prevIdx' < s.P(q[j]) {
          EarlierMedians(s, v, q, j, prevIdx);
          up', root', align' := Link(s, up, root', align', i, k, prevIdx, v, q[j]);
          prevIdx' := s.P(q[j]);
        }
      }
      TriedNext(s, up, root, align, prevIdx, up', root', align', prevIdx', i, k, v, q, j);
      j := j + 1;
    }
    Tried(s, up, root, align, prevIdx, up', root', align', prevIdx', i, k, v, q, j);
  }

  lemma Standing(s: Sheet, up: map<Id, Id>, root: map<Id, Id>, align: map<Id, Id>, i: nat, k: nat, prevIdx: int, v: Id)
    requires Aligning(s, up, root, align, i, k, prevIdx) && s.In(i, k) && s.layering[i][k] == v
    ensures s.Valid() && v in s.pos && v in s.related && v in root && v in align && align[v] == v
  {
    hide *;
    AligningParts(s, up, root, align, i, k, prevIdx);
    TopOf(s, up, root, align);
    PlaceOf(s, i, k);
    Untouched(s, up, root, align, i, k, prevIdx, v);
  }

  lemma PlaceOf(s: Sheet, i: nat, k: nat)
    requires s.Valid() && s.In(i, k)
    ensures s.layering[i][k] in s.pos && s.layering[i][k] in s.related && s.L(s.layering[i][k]) == i && s.P(s.layering[i][k]) == k
  {
  }

  lemma NeighbourPlaced(s: Sheet, up: map<Id, Id>, root: map<Id, Id>, align: map<Id, Id>, i: nat, k: nat, prevIdx: int, v: Id, q: seq<Id>, j: nat)
    requires Aligning(s, up, root, align, i, k, prevIdx) && v in s.pos && v in s.related && Lists(q, s.related[v]) && j < |q|
    ensures q[j] in s.related[v] && q[j] in s.pos && q[j] in root
  {
    hide Sheet.Linked, Sheet.Reached, Sheet.LastLink, Sheet.Lowest;
  }

  lemma FirstTry(s: Sheet, up: map<Id, Id>, root: map<Id, Id>, align: map<Id, Id>, i: nat, k: nat, prevIdx: int, v: Id, q: seq<Id>, j: nat)
    requires v in align && align[v] == v && j <= (if |q| == 0 then 0 else (|q| - 1) / 2)
    ensures Trying(s, up, root, align, prevIdx, up, root, align, prevIdx, i, k, v, q, j)
  {
    hide Aligning;
  }

  lemma TriedSo(s: Sheet, up: map<Id, Id>, root: map<Id, Id>, align: map<Id, Id>, prevIdx: int,
                up': map<Id, Id>, root': map<Id, Id>, align': map<Id, Id>, prevIdx': int, i: nat, k: nat, v: Id, q: seq<Id>, j: nat)
    requires Trying(s, up, root, align, prevIdx, up', root', align', prevIdx', i, k, v, q, j)
    ensures v in align'
    ensures align'[v] == v ==> up' == up && root' == root && align' == align && prevIdx' == prevIdx && Rejected(s, v, q, j, prevIdx)
    ensures align'[v] != v ==> Aligning(s, up', root', align', i, k + 1, prevIdx')
  {
    hide Aligning;
  }

  lemma TriedNext(s: Sheet, up: map<Id, Id>, root: map<Id, Id>, align: map<Id, Id>, prevIdx: int,
                  up': map<Id, Id>, root': map<Id, Id>, align': map<Id, Id>, prevIdx': int, i: nat, k: nat, v: Id, q: seq<Id>, j: nat)
    requires v in align' && j < |q|
    requires align'[v] != v ==> Aligning(s, up', root', align', i, k + 1, prevIdx')
    requires align'[v] == v ==> up' == up && root' == root && align' == align && prevIdx' == prevIdx && Rejected(s, v, q, j, prevIdx)
    requires align'[v] == v ==> s.Conflict(q[j], v) || s.P(q[j]) <= prevIdx
    ensures Trying(s, up, root, align, prevIdx, up', root', align', prevIdx', i, k, v, q, j + 1)
  {
    hide Aligning, Sheet.Conflict;
  }

  lemma Tried(s: Sheet, up: map<Id, Id>, root: map<Id, Id>, align: map<Id, Id>, prevIdx: int,
              up': map<Id, Id>, root': map<Id, Id>, align': map<Id, Id>, prevIdx': int, i: nat, k: nat, v: Id, q: seq<Id>, j: nat)
    requires Trying(s, up, root, align, prevIdx, up', root', align', prevIdx', i, k, v, q, j)
    requires Aligning(s, up, root, align, i, k, prevIdx) && s.In(i, k) && s.layering[i][k] == v
    requires v in s.related && Lists(q, s.related[v]) && s.Sorted(q) && (|q| == 0 || j > |q| / 2)
    ensures Aligning(s, up', root', align', i, k + 1, prevIdx')
  {
    hide Aligning, Sheet.Conflict;
    TriedSo(s, up, root, align, prevIdx, up', root', align', prevIdx', i, k, v, q, j);
    if align'[v] == v {
      AdvanceAlone(s, up, root, align, i, k, prevIdx, v, q);
    }
  }

  lemma AligningParts(s: Sheet, up: map<Id, Id>, root: map<Id, Id>, align: map<Id, Id>, i: nat, k: nat, prevIdx: int)
    requires Aligning(s, up, root, align, i, k, prevIdx)
    ensures s.Valid() && s.Linked(up) && s.Blocks(up, root, align) && s.Reached(up, i, k) && s.LastLink(up, i, k, prevIdx)
  {
    hide Sheet.Valid, Sheet.Linked, Sheet.Blocks, Sheet.Reached, Sheet.LastLink;
  }

  lemma LinksPlaced(s: Sheet, up: map<Id, Id>, i: nat, k: nat)
    requires s.Linked(up) && s.Reached(up, i, k)
    ensures forall x :: x in up ==> s.Before(x, i, k) && x in s.pos && up[x] in s.pos
  {
    hide Sheet.Median, Sheet.Greedy, Sheet.Before;
  }

  // ---------- the whole scan ----------

  /** All nodes have been looked at. */
  ghost predicate Aligned(s: Sheet, up: map<Id, Id>, root: map<Id, Id>, align: map<Id, Id>) {
    s.Linked(up) && s.Blocks(up, root, align) && forall v :: v in s.pos ==> s.Greedy(up, v)
  }

  /** pos holds the places of the nodes in the layers before (i, k), and root and align are the identity there. */
  ghost predicate Singles(s: Sheet, pos: map<Id, nat>, root: map<Id, Id>, align: map<Id, Id>, i: nat, k: nat) {
    && pos.Keys == root.Keys == align.Keys
    && (forall v :: v in pos <==> v in s.pos && s.Before(v, i, k))
    && (forall v :: v in pos ==> pos[v] == s.P(v) && root[v] == v && align[v] == v)
  }

  lemma SinglesStep(s: Sheet, pos: map<Id, nat>, root: map<Id, Id>, align: map<Id, Id>, i: nat, k: nat, u: Id)
    requires s.Valid() && Singles(s, pos, root, align, i, k) && s.In(i, k) && u == s.layering[i][k]
    ensures Singles(s, pos[u := k], root[u := u], align[u := u], i, k + 1)
  {
    hide Sheet.In;
    PlaceOf(s, i, k);
    NextPlace(s, i, k, u);
    hide Sheet.Valid, Sheet.Before, Sheet.L, Sheet.P;
  }

  lemma NextPlace(s: Sheet, i: nat, k: nat, u: Id)
    requires s.Valid() && s.In(i, k) && u == s.layering[i][k]
    ensures forall v :: v in s.pos ==> (s.Before(v, i, k + 1) <==> s.Before(v, i, k) || v == u)
  {
  }

  lemma SinglesTurn(s: Sheet, pos: map<Id, nat>, root: map<Id, Id>, align: map<Id, Id>, i: nat)
    requires s.Valid() && i < |s.layering| && Singles(s, pos, root, align, i, |s.layering[i]|)
    ensures Singles(s, pos, root, align, i + 1, 0)
  {
  }

  lemma AligningStarts(s: Sheet, pos: map<Id, nat>, root: map<Id, Id>, align: map<Id, Id>)
    requires s.Valid() && Singles(s, pos, root, align, |s.layering|, 0)
    ensures pos == s.pos && Aligning(s, map[], root, align, 0, 0, -1)
  {
    hide *;
    SinglesAll(s, pos, root, align);
    NothingLinked(s, root, align);
    AligningMade(s, map[], root, align, 0, 0, -1);
  }

  lemma SinglesAll(s: Sheet, pos: map<Id, nat>, root: map<Id, Id>, align: map<Id, Id>)
    requires s.Valid() && Singles(s, pos, root, align, |s.layering|, 0)
    ensures pos == s.pos && root.Keys == align.Keys == s.pos.Keys && forall v :: v in s.pos ==> root[v] == v && align[v] == v
  {
    forall v | v in s.pos ensures s.Before(v, |s.layering|, 0) {
      assert s.In(s.L(v), s.P(v));
    }
    hide Sheet.Valid, Sheet.Before;
    assert forall v :: v in s.pos ==> v in pos && pos[v] == s.pos[v];
  }

  lemma NothingLinked(s: Sheet, root: map<Id, Id>, align: map<Id, Id>)
    requires root.Keys == align.Keys == s.pos.Keys && forall v :: v in s.pos ==> root[v] == v && align[v] == v
    ensures s.Linked(map[]) && s.Blocks(map[], root, align) && s.Reached(map[], 0, 0) && s.LastLink(map[], 0, 0, -1)
  {
    hide Sheet.Median;
  }

  lemma AligningTurn(s: Sheet, up: map<Id, Id>, root: map<Id, Id>, align: map<Id, Id>, i: nat, prevIdx: int)
    requires i < |s.layering| && Aligning(s, up, root, align, i, |s.layering[i]|, prevIdx)
    ensures Aligning(s, up, root, align, i + 1, 0, -1)
  {
    hide *;
    AligningParts(s, up, root, align, i, |s.layering[i]|, prevIdx);
    ReachedTurn(s, up, i, prevIdx);
    AligningMade(s, up, root, align, i + 1, 0, -1);
  }

  lemma ReachedTurn(s: Sheet, up: map<Id, Id>, i: nat, prevIdx: int)
    requires i < |s.layering| && s.Valid() && s.Reached(up, i, |s.layering[i]|)
    ensures s.Reached(up, i + 1, 0) && s.LastLink(up, i + 1, 0, -1)
  {
    hide Sheet.Greedy;
  }

  lemma AligningEnds(s: Sheet, up: map<Id, Id>, root: map<Id, Id>, align: map<Id, Id>, prevIdx: int)
    requires Aligning(s, up, root, align, |s.layering|, 0, prevIdx)
    ensures Aligned(s, up, root, align)
  {
    hide Sheet.Greedy, Sheet.Linked, Sheet.Blocks;
  }

  /** Chains the nodes into blocks. The links are to the first free medians, greedily from left to right, and
      cross nowhere; root and align present the chains as rings. */
  method VerticalAlignment(s: Sheet) returns (pos: map<Id, nat>, root: map<Id, Id>, align: map<Id, Id>, ghost up: map<Id, Id>)
    requires s.Valid()
    ensures pos == s.pos && Aligned(s, up, root, align)
  {
    hide *;
    pos, root, align := map[], map[], map[];
    NoSingles(s);
    for i := 0 to |s.layering|
      invariant Singles(s, pos, root, align, i, 0)
    {
      for k := 0 to |s.layering[i]|
        invariant Singles(s, pos, root, align, i, k)
      {
        InPlace(s, i, k);
        var u := s.layering[i][k];
        SinglesStep(s, pos, root, align, i, k, u);
        root := root[u := u];
        align := align[u := u];
        pos := pos[u := k];
      }
      SinglesTurn(s, pos, root, align, i);
    }
    AligningStarts(s, pos, root, align);
    up := map[];
    for i := 0 to |s.layering|
      invariant Aligning(s, up, root, align, i, 0, -1)
    {
      var prevIdx := -1;
      for k := 0 to |s.layering[i]|
        invariant Aligning(s, up, root, align, i, k, prevIdx)
      {
        InPlace(s, i, k);
        up, root, align, prevIdx := AlignNode(s, up, root, align, i, k, prevIdx, s.layering[i][k]);
      }
      AligningTurn(s, up, root, align, i, prevIdx);
    }
    AligningEnds(s, up, root, align, -1);
  }

  lemma InPlace(s: Sheet, i: nat, k: nat)
    requires i < |s.layering| && k < |s.layering[i]|
    ensures s.In(i, k)
  {
  }

  lemma NoSingles(s: Sheet)
    ensures Singles(s, map[], map[], map[], 0, 0)
  {
  }
}
