/** Counting edge crossings of a layered drawing with an accumulator tree. */
module CrossCounts {
  import opened Base
  import opened Digraphs

  // ---------- the accumulator tree ----------

  /** Nodes of a complete binary tree are numbered from the root, 2t+1 and 2t+2 being the children of t. */
  ghost function Depth(t: nat): nat {
    if t == 0 then 0 else 1 + Depth((t - 1) / 2)
  }

  /** t is l or an ancestor of l. */
  ghost predicate Over(t: nat, l: nat)
    decreases l
  {
    t == l || (t < l && Over(t, (l - 1) / 2))
  }

  ghost function Power(d: nat): nat {
    if d == 0 then 1 else 2 * Power(d - 1)
  }

  lemma {:induction false} LeafDepth(d: nat, l: nat)
    requires Power(d) - 1 <= l <= 2 * Power(d) - 2
    ensures Depth(l) == d
  {
    if d > 0 {
      LeafDepth(d - 1, (l - 1) / 2);
    }
  }

  /** An ancestor is less deep. */
  lemma {:induction false} OverDepth(t: nat, l: nat)
    requires Over(t, l)
    ensures t == l || Depth(t) < Depth(l)
    decreases l
  {
    if t != l {
      OverDepth(t, (l - 1) / 2);
    }
  }

  /** Below a left child there are smaller leaves than below its right sibling. */
  lemma {:induction false} SiblingOrder(t: nat, l: nat, r: nat)
    requires t % 2 == 1 && Over(t, l) && Over(t + 1, r) && Depth(l) == Depth(r)
    ensures l < r
    decreases l
  {
    assert (t - 1) / 2 == (t + 1 - 1) / 2;
    OverDepth(t, l);
    OverDepth(t + 1, r);
    if l != t && r != t + 1 {
      SiblingOrder(t, (l - 1) / 2, (r - 1) / 2);
    }
  }

  /** What lies below an inner node lies below one of its children, and the other way round. */
  lemma {:induction false} OverChildren(p: nat, l: nat)
    requires l > p
    ensures Over(p, l) <==> Over(2 * p + 1, l) || Over(2 * p + 2, l)
    decreases l
  {
    var q := (l - 1) / 2;
    if q > p {
      OverChildren(p, q);
    } else if q == p {
      assert l == 2 * p + 1 || l == 2 * p + 2;
    } else {
      assert l < 2 * p + 1;
    }
  }

  lemma {:induction false} OverRoot(l: nat)
    ensures Over(0, l)
  {
    if l > 0 {
      OverRoot((l - 1) / 2);
    }
  }

  /** Only one of two siblings is above a leaf. */
  lemma OverOne(t: nat, l: nat, d: nat)
    requires t % 2 == 1 && Depth(l) == d
    ensures !(Over(t, l) && Over(t + 1, l))
  {
    if Over(t, l) && Over(t + 1, l) {
      SiblingOrder(t, l, l);
    }
  }

  /** Those of the indices that lie below t, among leaves numbered from f - 1 on. */
  ghost function Below(idx: seq<nat>, f: nat, t: nat): set<nat>
    requires f > 0
  {
    set k: nat | k < |idx| && Over(t, idx[k] + f - 1)
  }

  ghost function Greater(idx: seq<nat>, i: nat): set<nat> {
    set k: nat | k < |idx| && idx[k] > i
  }

  ghost predicate InRange(idx: seq<nat>, f: nat) {
    forall k :: 0 <= k < |idx| ==> idx[k] < f
  }

  /** Each node of the tree counts the indices below it. */
  ghost predicate Counts(tree: seq<nat>, f: nat, idx: seq<nat>) {
    f > 0 && |tree| == 2 * f - 1 && forall t :: 0 <= t < |tree| ==> tree[t] == |Below(idx, f, t)|
  }

  /** The ancestors of leaf l from t on have already been counted up. */
  ghost predicate CountsUp(tree: seq<nat>, f: nat, idx: seq<nat>, l: nat, t: nat) {
    f > 0 && |tree| == 2 * f - 1 &&
    forall s :: 0 <= s < |tree| ==> tree[s] == |Below(idx, f, s)| + (if s >= t && Over(s, l) then 1 else 0)
  }

  /** The greater indices below t. */
  ghost function GreaterBelow(idx: seq<nat>, f: nat, i: nat, t: nat): set<nat>
    requires f > 0
  {
    set k: nat | k < |idx| && idx[k] > i && Over(t, idx[k] + f - 1)
  }

  /** How leaf r lies to the way up from leaf l, at its node t. */
  lemma Sides(d: nat, l: nat, t: nat, r: nat)
    requires Power(d) - 1 <= l <= 2 * Power(d) - 2 && Power(d) - 1 <= r <= 2 * Power(d) - 2 && 0 < t <= 2 * Power(d) - 2 && Over(t, l)
    ensures var p := (t - 1) / 2; Over(p, r) <==> Over(2 * p + 1, r) || Over(2 * p + 2, r)
    ensures t % 2 == 1 && Over(t + 1, r) ==> l < r && !Over(t, r)
    ensures t % 2 == 0 && Over(t - 1, r) ==> r < l
  {
    LeafDepth(d, l);
    LeafDepth(d, r);
    OverChildren((t - 1) / 2, r);
    if t % 2 == 1 && Over(t + 1, r) {
      SiblingOrder(t, l, r);
      OverOne(t, r, d);
    }
    if t % 2 == 0 && Over(t - 1, r) {
      SiblingOrder(t - 1, r, l);
    }
  }

  /** Where index k is found on the way up from leaf i + f - 1, between its nodes t and (t - 1) / 2. */
  lemma GreaterUpAt(idx: seq<nat>, f: nat, d: nat, i: nat, t: nat, k: nat)
    requires f == Power(d) && i < f && InRange(idx, f) && 0 < t <= 2 * f - 2 && Over(t, i + f - 1)
    ensures t % 2 == 1 ==> (k in GreaterBelow(idx, f, i, (t - 1) / 2) <==> k in GreaterBelow(idx, f, i, t) || k in Below(idx, f, t + 1))
    ensures t % 2 == 1 ==> !(k in GreaterBelow(idx, f, i, t) && k in Below(idx, f, t + 1))
    ensures t % 2 == 0 ==> (k in GreaterBelow(idx, f, i, (t - 1) / 2) <==> k in GreaterBelow(idx, f, i, t))
  {
    hide Over, Depth, Power;
    if k < |idx| {
      Sides(d, i + f - 1, t, idx[k] + f - 1);
      assert t == 2 * ((t - 1) / 2) + 1 || t == 2 * ((t - 1) / 2) + 2;
    }
  }

  lemma GreaterUp(idx: seq<nat>, f: nat, d: nat, i: nat, t: nat)
    requires f == Power(d) && i < f && InRange(idx, f) && 0 < t <= 2 * f - 2 && Over(t, i + f - 1)
    ensures t % 2 == 1 ==> t + 1 <= 2 * f - 2 && !Over(t + 1, i + f - 1)
    ensures |GreaterBelow(idx, f, i, (t - 1) / 2)| == |GreaterBelow(idx, f, i, t)| + (if t % 2 == 1 then |Below(idx, f, t + 1)| else 0)
  {
    hide *;
    var up, here, next := GreaterBelow(idx, f, i, (t - 1) / 2), GreaterBelow(idx, f, i, t), Below(idx, f, t + 1);
    if t % 2 == 1 {
      Sides(d, i + f - 1, t, i + f - 1);
      forall k: nat ensures (k in up <==> k in here || k in next) && !(k in here && k in next) {
        GreaterUpAt(idx, f, d, i, t, k);
      }
      SplitSize(up, here, next);
    } else {
      forall k: nat ensures k in up <==> k in here {
        GreaterUpAt(idx, f, d, i, t, k);
      }
      assert up == here;
    }
  }

  lemma SplitSize(up: set<nat>, here: set<nat>, there: set<nat>)
    requires forall k: nat :: (k in up <==> k in here || k in there) && !(k in here && k in there)
    ensures |up| == |here| + |there|
  {
    assert up == here + there;
  }

  lemma CountsUpStep(tree: seq<nat>, f: nat, idx: seq<nat>, l: nat, t: nat)
    requires CountsUp(tree, f, idx, l, t) && 0 < t < |tree| && Over(t, l)
    ensures var p := (t - 1) / 2; Over(p, l) && CountsUp(tree[p := tree[p] + 1], f, idx, l, p)
  {
    var p := (t - 1) / 2;
    OverParent(t, l);
    forall s: nat | p < s < t ensures !Over(s, l) {
      OverGap(t, s, l);
    }
  }

  lemma {:induction false} OverParent(t: nat, l: nat)
    requires Over(t, l) && t > 0
    ensures Over((t - 1) / 2, l)
    decreases l
  {
    if t != l {
      OverParent(t, (l - 1) / 2);
    }
  }

  /** Between a node and its parent there is no other ancestor of the same leaf. */
  lemma {:induction false} OverGap(t: nat, s: nat, l: nat)
    requires Over(t, l) && t > 0 && (t - 1) / 2 < s < t
    ensures !Over(s, l)
    decreases l
  {
    if t != l {
      OverGap(t, s, (l - 1) / 2);
    } else {
      OverLess(s, (l - 1) / 2);
    }
  }

  lemma OverLess(s: nat, l: nat)
    requires l < s
    ensures !Over(s, l)
  {
  }

  lemma BelowMore(idx: seq<nat>, f: nat, i: nat, t: nat)
    requires f > 0
    ensures |Below(idx + [i], f, t)| == |Below(idx, f, t)| + if Over(t, i + f - 1) then 1 else 0
  {
    hide Over;
    if Over(t, i + f - 1) {
      assert Below(idx + [i], f, t) == Below(idx, f, t) + {|idx|};
    } else {
      assert Below(idx + [i], f, t) == Below(idx, f, t);
    }
  }

  /** Counting one more index. */
  lemma CountsMore(tree: seq<nat>, f: nat, idx: seq<nat>, i: nat)
    requires i < f && CountsUp(tree, f, idx, i + f - 1, 0)
    ensures Counts(tree, f, idx + [i])
  {
    hide Over, Below;
    forall t: nat | t < |tree| ensures tree[t] == |Below(idx + [i], f, t)| {
      BelowMore(idx, f, i, t);
    }
  }

  /** Counts up the leaf of index i and its ancestors, and adds up what the right siblings on the way have counted:
      the number of greater indices counted before. */
  method Accumulate(tree: array<nat>, f: nat, ghost d: nat, ghost idx: seq<nat>, i: nat) returns (cc: nat)
    requires Counts(tree[..], f, idx) && f == Power(d) && i < f && InRange(idx, f)
    modifies tree
    ensures Counts(tree[..], f, idx + [i]) && cc == |Greater(idx, i)|
  {
    hide Over, Power, Counts, CountsUp;
    cc := 0;
    TreeSize(tree[..], f, idx);
    var treeIndex := i + f - 1;
    ghost var l := treeIndex;
    AccumulateStarts(tree[..], f, idx, i);
    ghost var before := tree[..];
    tree[treeIndex] := tree[treeIndex] + 1;
    assert tree[..] == before[l := before[l] + 1];
    while treeIndex > 0
      invariant treeIndex <= l < tree.Length == 2 * f - 1 && Over(treeIndex, l) && CountsUp(tree[..], f, idx, l, treeIndex)
      invariant cc == |GreaterBelow(idx, f, i, treeIndex)|
    {
      ghost var t := treeIndex;
      GreaterUp(idx, f, d, i, t);
      CountsUpStep(tree[..], f, idx, l, t);
      if treeIndex % 2 != 0 {
        SiblingCount(tree[..], f, idx, l, t);
        cc := cc + tree[treeIndex + 1];
      }
      treeIndex := (treeIndex - 1) / 2;
      before := tree[..];
      tree[treeIndex] := tree[treeIndex] + 1;
      assert tree[..] == before[treeIndex := before[treeIndex] + 1];
    }
    CountsMore(tree[..], f, idx, i);
    AllBelowRoot(idx, f, i);
  }

  lemma TreeSize(tree: seq<nat>, f: nat, idx: seq<nat>)
    requires Counts(tree, f, idx)
    ensures f > 0 && |tree| == 2 * f - 1
  {
    hide Below;
  }

  lemma AccumulateStarts(tree: seq<nat>, f: nat, idx: seq<nat>, i: nat)
    requires Counts(tree, f, idx) && i < f && InRange(idx, f)
    ensures var l := i + f - 1; l < |tree| && Over(l, l) && CountsUp(tree[l := tree[l] + 1], f, idx, l, l) && |GreaterBelow(idx, f, i, l)| == 0
  {
    var l := i + f - 1;
    forall s: nat | s > l ensures !Over(s, l) {
      OverLess(s, l);
    }
    forall k: nat | k < |idx| ensures Over(l, idx[k] + f - 1) ==> idx[k] == i {
      LeafOnly(l, idx[k] + f - 1);
      if Over(l, idx[k] + f - 1) && idx[k] + f - 1 != l {
        OverFar(l, idx[k] + f - 1);
      }
    }
    assert GreaterBelow(idx, f, i, l) == {};
  }

  lemma LeafOnly(t: nat, l: nat)
    ensures l < t ==> !Over(t, l)
  {
  }

  lemma {:induction false} OverFar(t: nat, l: nat)
    requires Over(t, l) && t != l
    ensures l >= 2 * t + 1
    decreases l
  {
    if t != (l - 1) / 2 {
      OverFar(t, (l - 1) / 2);
    }
  }

  lemma SiblingCount(tree: seq<nat>, f: nat, idx: seq<nat>, l: nat, t: nat)
    requires CountsUp(tree, f, idx, l, t) && t + 1 < |tree| && !Over(t + 1, l)
    ensures tree[t + 1] == |Below(idx, f, t + 1)|
  {
    hide Over, Below;
  }

  lemma AllBelowRoot(idx: seq<nat>, f: nat, i: nat)
    requires f > 0
    ensures GreaterBelow(idx, f, i, 0) == Greater(idx, i)
  {
    forall k: nat | k < |idx| ensures Over(0, idx[k] + f - 1) {
      OverRoot(idx[k] + f - 1);
    }
  }

  // ---------- layered graphs ----------

  datatype Segment = Segment(u: Id, v: Id)

  /** A graph after normalization: each node has a rank, and every edge leads to the next one. */
  datatype Layered = Layered(rank: map<Id, nat>, height: nat, edges: map<Id, Segment>) {
    ghost predicate Valid() {
      && (forall u :: u in rank ==> rank[u] < height)
      && (forall e :: e in edges ==> edges[e].u in rank && edges[e].v in rank && rank[edges[e].v] == rank[edges[e].u] + 1)
      && (forall i :: 0 <= i < height ==> Layer(i) != {})
    }

    function Layer(i: nat): set<Id> {
      set u | u in rank && rank[u] == i
    }

    function OutEdges(u: Id): set<Id> {
      set e | e in edges && edges[e].u == u
    }

    function InEdges(u: Id): set<Id> {
      set e | e in edges && edges[e].v == u
    }
  }

  /** order numbers the nodes of s from 0 on; q lists them so. */
  ghost predicate PlacedAs(q: seq<Id>, s: set<Id>, order: map<Id, nat>) {
    Lists(q, s) && forall i :: 0 <= i < |q| ==> q[i] in order && order[q[i]] == i
  }

  ghost predicate Placed(s: set<Id>, order: map<Id, nat>) {
    exists q :: PlacedAs(q, s, order)
  }

  /** The orders of each layer are a permutation of 0..n-1. */
  ghost predicate Arranged(g: Layered, order: map<Id, nat>) {
    order.Keys == g.rank.Keys && forall i: nat :: i < g.height ==> Placed(g.Layer(i), order)
  }

  /** e and f cross: e starts to the left of f and ends to the right. */
  ghost predicate Crosses(g: Layered, order: map<Id, nat>, e: Id, f: Id) {
    && e in g.edges && f in g.edges
    && g.edges[e].u in order && g.edges[f].u in order && g.edges[e].v in order && g.edges[f].v in order
    && order[g.edges[e].u] < order[g.edges[f].u] && order[g.edges[e].v] > order[g.edges[f].v]
  }

  ghost predicate StartsAt(g: Layered, e: Id, i: nat) {
    e in g.edges && g.edges[e].u in g.rank && g.rank[g.edges[e].u] == i
  }

  /** The crossings between layer i and the next. */
  ghost function CrossingsAt(g: Layered, order: map<Id, nat>, i: nat): set<(Id, Id)> {
    set e, f | e in g.edges && f in g.edges && StartsAt(g, e, i) && StartsAt(g, f, i) && Crosses(g, order, e, f) :: (e, f)
  }

  /** All crossings of edges that start in the same layer. */
  ghost function Crossings(g: Layered, order: map<Id, nat>): set<(Id, Id)> {
    set e, f | e in g.edges && f in g.edges && g.edges[e].u in g.rank && StartsAt(g, f, g.rank[g.edges[e].u]) && Crosses(g, order, e, f)
      :: (e, f)
  }

  // ---------- one pair of layers ----------

  /** es lists the edges out of the nodes us from left to right, edges of one node by their targets; idx are the targets' orders. */
  ghost predicate Scanned(g: Layered, order: map<Id, nat>, us: set<Id>, es: seq<Id>, idx: seq<nat>) {
    && |es| == |idx| && NoDup(es) && (forall e :: e in es <==> e in g.edges && g.edges[e].u in us)
    && (forall k :: 0 <= k < |es| ==> es[k] in g.edges && g.edges[es[k]].u in order && g.edges[es[k]].v in order)
    && (forall k :: 0 <= k < |es| ==> idx[k] == order[g.edges[es[k]].v])
    && (forall k, l :: 0 <= k < l < |es| ==>
          order[g.edges[es[k]].u] < order[g.edges[es[l]].u] || (g.edges[es[k]].u == g.edges[es[l]].u && idx[k] <= idx[l]))
  }

  /** The crossings among the edges of done. */
  ghost function Among(g: Layered, order: map<Id, nat>, done: set<Id>): set<(Id, Id)> {
    set e, f | e in done && f in done && Crosses(g, order, e, f) :: (e, f)
  }

  /** Those of done that cross f from the left. */
  ghost function Crossers(g: Layered, order: map<Id, nat>, done: set<Id>, f: Id): set<Id> {
    set e | e in done && Crosses(g, order, e, f)
  }

  ghost function PairsWith(s: set<Id>, f: Id): set<(Id, Id)> {
    set e | e in s :: (e, f)
  }

  lemma {:induction false} PairCount(s: set<Id>, f: Id)
    ensures |PairsWith(s, f)| == |s|
    decreases s
  {
    if s == {} {
      assert PairsWith(s, f) == {};
    } else {
      var e :| e in s;
      PairCount(s - {e}, f);
      assert PairsWith(s, f) == PairsWith(s - {e}, f) + {(e, f)};
    }
  }

  lemma AmongMore(g: Layered, order: map<Id, nat>, done: set<Id>, f: Id)
    requires f !in done && !Crosses(g, order, f, f) && forall e :: e in done ==> !Crosses(g, order, f, e)
    ensures |Among(g, order, done + {f})| == |Among(g, order, done)| + |Crossers(g, order, done, f)|
  {
    hide Crosses;
    var pairs := PairsWith(Crossers(g, order, done, f), f);
    PairCount(Crossers(g, order, done, f), f);
    assert Among(g, order, done + {f}) == Among(g, order, done) + pairs;
    assert Among(g, order, done) !! pairs;
  }

  ghost function Picks(es: seq<Id>, ks: set<nat>): set<Id> {
    set k | k in ks && k < |es| :: es[k]
  }

  lemma {:induction false} PicksCount(es: seq<Id>, ks: set<nat>)
    requires NoDup(es) && forall k :: k in ks ==> k < |es|
    ensures |Picks(es, ks)| == |ks|
    decreases ks
  {
    if ks == {} {
      assert Picks(es, ks) == {};
    } else {
      var k :| k in ks;
      PicksCount(es, ks - {k});
      assert Picks(es, ks) == Picks(es, ks - {k}) + {es[k]};
      assert es[k] !in Picks(es, ks - {k});
    }
  }

  /** The n-th edge is crossed by those before it that end further right. */
  lemma CrossersAre(g: Layered, order: map<Id, nat>, us: set<Id>, es: seq<Id>, idx: seq<nat>, n: nat)
    requires Scanned(g, order, us, es, idx) && n < |es|
    ensures |Crossers(g, order, Upto(es, n), es[n])| == |Greater(idx[..n], idx[n])|
    ensures es[n] !in Upto(es, n) && !Crosses(g, order, es[n], es[n])
    ensures forall e :: e in Upto(es, n) ==> !Crosses(g, order, es[n], e)
  {
    var ks := Greater(idx[..n], idx[n]);
    forall k: nat | k < n
      ensures Crosses(g, order, es[k], es[n]) <==> k in ks
      ensures es[k] in Upto(es, n) && !Crosses(g, order, es[n], es[k])
    {
      assert k in ks <==> idx[k] > idx[n];
      assert es[..n][k] == es[k];
    }
    forall e | e in Upto(es, n) ensures exists k: nat :: k < n && es[k] == e {
      var k :| 0 <= k < n && es[..n][k] == e;
    }
    hide Crosses;
    assert Crossers(g, order, Upto(es, n), es[n]) == Picks(es, ks);
    PicksCount(es, ks);
  }

  lemma AmongStep(g: Layered, order: map<Id, nat>, us: set<Id>, es: seq<Id>, idx: seq<nat>, n: nat)
    requires Scanned(g, order, us, es, idx) && n < |es|
    ensures |Among(g, order, Upto(es, n + 1))| == |Among(g, order, Upto(es, n))| + |Greater(idx[..n], idx[n])|
  {
    hide *;
    CrossersAre(g, order, us, es, idx, n);
    AmongMore(g, order, Upto(es, n), es[n]);
    UptoNext(es, n);
  }

  lemma UptoNext(es: seq<Id>, n: nat)
    requires n < |es|
    ensures Upto(es, n + 1) == Upto(es, n) + {es[n]}
  {
    assert es[..n + 1] == es[..n] + [es[n]];
  }

  /** At the end all crossings have been counted. */
  lemma AmongAll(g: Layered, order: map<Id, nat>, i: nat, es: seq<Id>, idx: seq<nat>)
    requires Scanned(g, order, g.Layer(i), es, idx)
    ensures Among(g, order, Upto(es, |es|)) == CrossingsAt(g, order, i) && Among(g, order, Upto(es, 0)) == {}
  {
    assert es[..|es|] == es;
    assert forall e :: e in Upto(es, |es|) <==> StartsAt(g, e, i);
    hide Crosses, Scanned;
  }

  /** All edges have places in the drawing. */
  ghost predicate Drawn(g: Layered, order: map<Id, nat>) {
    g.Valid() && Arranged(g, order)
  }

  lemma EdgePlaced(g: Layered, order: map<Id, nat>, e: Id)
    requires Drawn(g, order) && e in g.edges
    ensures g.edges[e].u in order && g.edges[e].v in order
  {
    hide Placed;
  }

  /** The targets' orders of the edges out of u, ascending. */
  method SortedTargets(g: Layered, order: map<Id, nat>, u: Id) returns (xs: seq<nat>, ghost es: seq<Id>)
    requires Drawn(g, order)
    ensures Lists(es, g.OutEdges(u)) && |xs| == |es|
    ensures forall k :: 0 <= k < |es| ==> es[k] in g.edges && g.edges[es[k]].v in order && xs[k] == order[g.edges[es[k]].v]
    ensures forall k, l :: 0 <= k < l < |es| ==> xs[k] <= xs[l]
  {
    xs, es := [], [];
    var rest := g.OutEdges(u);
    while rest != {}
      invariant rest <= g.OutEdges(u) && Lists(es, g.OutEdges(u) - rest) && |xs| == |es|
      invariant forall k :: 0 <= k < |es| ==> es[k] in g.edges && g.edges[es[k]].v in order && xs[k] == order[g.edges[es[k]].v]
      invariant forall k, l :: 0 <= k < l < |es| ==> xs[k] <= xs[l]
      invariant forall k, e :: 0 <= k < |es| && e in rest ==> xs[k] <= Target(g, order, e)
      decreases rest
    {
      var m := Leftmost(g, order, rest);
      EdgePlaced(g, order, m);
      AppendEdge(es, g.OutEdges(u) - rest, m);
      xs, es := xs + [order[g.edges[m].v]], es + [m];
      assert g.OutEdges(u) - rest + {m} == g.OutEdges(u) - (rest - {m});
      rest := rest - {m};
    }
    assert g.OutEdges(u) - rest == g.OutEdges(u);
  }

  function Target(g: Layered, order: map<Id, nat>, e: Id): nat {
    if e in g.edges && g.edges[e].v in order then order[g.edges[e].v] else 0
  }

  lemma AppendEdge(es: seq<Id>, s: set<Id>, e: Id)
    requires Lists(es, s) && e !in s
    ensures Lists(es + [e], s + {e})
  {
  }

  method Leftmost(g: Layered, order: map<Id, nat>, es: set<Id>) returns (m: Id)
    requires es != {}
    ensures m in es && forall e :: e in es ==> Target(g, order, m) <= Target(g, order, e)
  {
    m :| m in es;
    var left := es - {m};
    while left != {}
      invariant m in es && left <= es && forall e :: e in es - left ==> Target(g, order, m) <= Target(g, order, e)
      decreases left
    {
      var e :| e in left;
      if Target(g, order, e) < Target(g, order, m) {
        m := e;
      }
      left := left - {e};
    }
  }

  lemma ScannedStep(g: Layered, order: map<Id, nat>, layer: seq<Id>, n: nat, es: seq<Id>, idx: seq<nat>, es': seq<Id>, xs: seq<nat>)
    requires Drawn(g, order) && n < |layer| && NoDup(layer) && (forall i :: 0 <= i < |layer| ==> layer[i] in order && order[layer[i]] == i)
    requires Scanned(g, order, Upto(layer, n), es, idx)
    requires Lists(es', g.OutEdges(layer[n])) && |xs| == |es'|
    requires forall k :: 0 <= k < |es'| ==> es'[k] in g.edges && g.edges[es'[k]].v in order && xs[k] == order[g.edges[es'[k]].v]
    requires forall k, l :: 0 <= k < l < |es'| ==> xs[k] <= xs[l]
    ensures Scanned(g, order, Upto(layer, n + 1), es + es', idx + xs)
  {
    hide Drawn, Lists;
    var u := layer[n];
    UptoNext(layer, n);
    ListedEdges(g, es', u);
    EarlierNodes(order, layer, n);
    hide Upto;
    var e2, i2 := es + es', idx + xs;
    forall k | 0 <= k < |es| ensures order[g.edges[es[k]].u] < n && es[k] !in es' {
      assert es[k] in es;
    }
    JoinNoDup(es, es');
  }

  lemma ListedEdges(g: Layered, es: seq<Id>, u: Id)
    requires Lists(es, g.OutEdges(u))
    ensures NoDup(es) && (forall e :: e in es <==> e in g.edges && g.edges[e].u == u)
    ensures forall k :: 0 <= k < |es| ==> es[k] in g.edges && g.edges[es[k]].u == u
  {
    forall k | 0 <= k < |es| ensures es[k] in g.edges && g.edges[es[k]].u == u {
      assert es[k] in es;
    }
  }

  lemma EarlierNodes(order: map<Id, nat>, layer: seq<Id>, n: nat)
    requires n < |layer| && (forall i :: 0 <= i < |layer| ==> layer[i] in order && order[layer[i]] == i)
    ensures forall u :: u in Upto(layer, n) ==> u in order && order[u] < n && u != layer[n]
  {
    forall u | u in Upto(layer, n) ensures u in order && order[u] < n {
      var i :| 0 <= i < n && layer[..n][i] == u;
      assert layer[i] == u;
    }
  }

  lemma JoinNoDup(a: seq<Id>, b: seq<Id>)
    requires NoDup(a) && NoDup(b) && forall k :: 0 <= k < |a| ==> a[k] !in b
    ensures NoDup(a + b)
  {
  }

  lemma ScannedNothing(g: Layered, order: map<Id, nat>, layer: seq<Id>)
    ensures Scanned(g, order, Upto(layer, 0), [], [])
  {
  }

  /** All targets of edges out of layer i are numbered below the size of the next layer. */
  lemma TargetsFit(g: Layered, order: map<Id, nat>, i: nat, es: seq<Id>, idx: seq<nat>, f: nat)
    requires Drawn(g, order) && Scanned(g, order, g.Layer(i), es, idx) && |g.Layer(i + 1)| <= f
    ensures InRange(idx, f)
  {
    forall k | 0 <= k < |idx| ensures idx[k] < f {
      assert es[k] in es;
      var v := g.edges[es[k]].v;
      assert v in g.Layer(i + 1);
      assert g.rank[v] < g.height;
      var q :| PlacedAs(q, g.Layer(i + 1), order);
      ListsSize(q, g.Layer(i + 1));
      assert v in q;
    }
  }

  /** The crossings between two layers, the first listed from left to right. */
  method TwoLayerCrossCount(g: Layered, order: map<Id, nat>, i: nat, layer1: seq<Id>, layer2: seq<Id>) returns (cc: nat)
    requires Drawn(g, order) && PlacedAs(layer1, g.Layer(i), order) && |layer2| == |g.Layer(i + 1)|
    ensures cc == |CrossingsAt(g, order, i)|
  {
    hide Drawn, CrossingsAt, Scanned, Among, Counts, Greater, Power, Upto;
    var indices: seq<nat> := [];
    ghost var es: seq<Id> := [];
    ScannedNothing(g, order, layer1);
    for n := 0 to |layer1|
      invariant Scanned(g, order, Upto(layer1, n), es, indices) && |es| == |indices|
    {
      var xs;
      ghost var es';
      xs, es' := SortedTargets(g, order, layer1[n]);
      ScannedStep(g, order, layer1, n, es, indices, es', xs);
      indices, es := indices + xs, es + es';
    }
    UptoEnds(layer1, g.Layer(i));
    var firstIndex := 1;
    ghost var d := 0;
    PowerStart();
    while firstIndex < |layer2|
      invariant firstIndex == Power(d) && firstIndex > 0
      decreases |layer2| - firstIndex
    {
      PowerStep(d);
      firstIndex := firstIndex * 2;
      d := d + 1;
    }
    TargetsFit(g, order, i, es, indices, firstIndex);
    var tree := new nat[2 * firstIndex - 1](_ => 0);
    CountsNothing(tree[..], firstIndex);
    AmongAll(g, order, i, es, indices);
    cc := 0;
    for n := 0 to |indices|
      invariant Counts(tree[..], firstIndex, indices[..n]) && cc == |Among(g, order, Upto(es, n))| && |es| == |indices|
    {
      assert InRange(indices[..n], firstIndex);
      var added := Accumulate(tree, firstIndex, d, indices[..n], indices[n]);
      AmongStep(g, order, g.Layer(i), es, indices, n);
      assert indices[..n] + [indices[n]] == indices[..n + 1];
      cc := cc + added;
    }
    assert indices[..|indices|] == indices;
  }

  lemma PowerStart()
    ensures Power(0) == 1
  {
  }

  lemma PowerStep(d: nat)
    ensures Power(d + 1) == 2 * Power(d)
  {
  }

  lemma CountsNothing(tree: seq<nat>, f: nat)
    requires f > 0 && |tree| == 2 * f - 1 && forall t :: 0 <= t < |tree| ==> tree[t] == 0
    ensures Counts(tree, f, [])
  {
    forall t: nat ensures Below([], f, t) == {} {
    }
  }

  // ---------- the whole graph ----------

  /** slots holds the nodes of `done` by rank and order. */
  ghost predicate Slotted(g: Layered, order: map<Id, nat>, slots: map<(nat, nat), Id>, done: set<Id>) {
    && (forall u :: u in done ==> u in g.rank && u in order && (g.rank[u], order[u]) in slots)
    && (forall p :: p in slots ==> slots[p] in g.rank && slots[p] in order && p == (g.rank[slots[p]], order[slots[p]]))
  }

  lemma Slot(g: Layered, order: map<Id, nat>, slots: map<(nat, nat), Id>, i: nat, q: seq<Id>, k: nat)
    requires Slotted(g, order, slots, g.rank.Keys) && PlacedAs(q, g.Layer(i), order) && k < |q|
    ensures (i, k) in slots && slots[(i, k)] == q[k]
  {
    var u := q[k];
    assert u in g.Layer(i) && order[u] == k;
    assert (i, k) in slots;
    var v := slots[(i, k)];
    assert v in g.Layer(i) && order[v] == k;
    var j :| 0 <= j < |q| && q[j] == v;
  }

  lemma SlotsOf(g: Layered, order: map<Id, nat>, slots: map<(nat, nat), Id>, i: nat)
    requires Drawn(g, order) && Slotted(g, order, slots, g.rank.Keys) && i < g.height
    ensures forall k: nat :: k < |g.Layer(i)| ==> (i, k) in slots
    ensures forall r :: |r| == |g.Layer(i)| && (forall k: nat :: k < |r| ==> (i, k) in slots && r[k] == slots[(i, k)]) ==> PlacedAs(r, g.Layer(i), order)
  {
    var q :| PlacedAs(q, g.Layer(i), order);
    ListsSize(q, g.Layer(i));
    forall k: nat | k < |q| ensures (i, k) in slots && slots[(i, k)] == q[k] {
      Slot(g, order, slots, i, q, k);
    }
    hide Slotted, Drawn;
    forall r | |r| == |g.Layer(i)| && (forall k: nat :: k < |r| ==> (i, k) in slots && r[k] == slots[(i, k)])
      ensures PlacedAs(r, g.Layer(i), order)
    {
      assert r == q;
    }
  }

  /** The nodes of layer i read off by their orders. */
  method ReadLayer(g: Layered, ghost order: map<Id, nat>, slots: map<(nat, nat), Id>, i: nat) returns (r: seq<Id>)
    requires Drawn(g, order) && Slotted(g, order, slots, g.rank.Keys) && i < g.height
    ensures PlacedAs(r, g.Layer(i), order)
  {
    hide Drawn, Slotted, PlacedAs;
    SlotsOf(g, order, slots, i);
    r := [];
    for k := 0 to |g.Layer(i)|
      invariant |r| == k && forall j: nat :: j < k ==> (i, j) in slots && r[j] == slots[(i, j)]
    {
      r := r + [slots[(i, k)]];
    }
  }

  /** The layers as lists, each node at the place its order says. */
  method Ordering(g: Layered, order: map<Id, nat>) returns (ordering: seq<seq<Id>>)
    requires Drawn(g, order)
    ensures |ordering| == g.height && forall i: nat :: i < g.height ==> PlacedAs(ordering[i], g.Layer(i), order)
  {
    hide Drawn, PlacedAs, Slotted, Upto, Lists;
    NoSlots(g, order);
    var slots: map<(nat, nat), Id> := map[];
    var us := Listing(g.rank.Keys);
    UptoEnds(us, g.rank.Keys);
    for i := 0 to |us|
      invariant Slotted(g, order, slots, Upto(us, i))
    {
      UptoStep(us, g.rank.Keys, i);
      NodePlaced(g, order, us[i]);
      SlottedStep(g, order, slots, Upto(us, i), us[i]);
      slots := slots[(g.rank[us[i]], order[us[i]]) := us[i]];
    }
    ordering := [];
    for i := 0 to g.height
      invariant |ordering| == i && forall j: nat :: j < i ==> PlacedAs(ordering[j], g.Layer(j), order)
    {
      var layer := ReadLayer(g, order, slots, i);
      ordering := ordering + [layer];
    }
  }

  lemma NoSlots(g: Layered, order: map<Id, nat>)
    ensures Slotted(g, order, map[], {})
  {
  }

  lemma SlottedStep(g: Layered, order: map<Id, nat>, slots: map<(nat, nat), Id>, done: set<Id>, u: Id)
    requires Slotted(g, order, slots, done) && u in g.rank && u in order
    ensures Slotted(g, order, slots[(g.rank[u], order[u]) := u], done + {u})
  {
  }

  lemma NodePlaced(g: Layered, order: map<Id, nat>, u: Id)
    requires Drawn(g, order) && u in g.rank
    ensures u in order
  {
  }

  /** The crossings of edges that start before layer i. */
  ghost function CrossingsBefore(g: Layered, order: map<Id, nat>, i: nat): set<(Id, Id)> {
    set e, f | e in g.edges && f in g.edges && g.edges[e].u in g.rank && g.rank[g.edges[e].u] < i
               && StartsAt(g, f, g.rank[g.edges[e].u]) && Crosses(g, order, e, f) :: (e, f)
  }

  lemma CrossingsStep(g: Layered, order: map<Id, nat>, i: nat)
    ensures |CrossingsBefore(g, order, i + 1)| == |CrossingsBefore(g, order, i)| + |CrossingsAt(g, order, i)|
  {
    hide *;
    forall p: (Id, Id)
      ensures p in CrossingsBefore(g, order, i + 1) <==> p in CrossingsBefore(g, order, i) || p in CrossingsAt(g, order, i)
      ensures !(p in CrossingsBefore(g, order, i) && p in CrossingsAt(g, order, i))
    {
      CrossingStepAt(g, order, i, p);
    }
    assert CrossingsBefore(g, order, i + 1) == CrossingsBefore(g, order, i) + CrossingsAt(g, order, i);
  }

  lemma CrossingStepAt(g: Layered, order: map<Id, nat>, i: nat, p: (Id, Id))
    ensures p in CrossingsBefore(g, order, i + 1) <==> p in CrossingsBefore(g, order, i) || p in CrossingsAt(g, order, i)
    ensures !(p in CrossingsBefore(g, order, i) && p in CrossingsAt(g, order, i))
  {
    hide Crosses;
  }

  /** The last layer has no edges out of it. */
  lemma CrossingsEnd(g: Layered, order: map<Id, nat>)
    requires g.Valid()
    ensures CrossingsBefore(g, order, 0) == {}
    ensures CrossingsBefore(g, order, if g.height == 0 then 0 else g.height - 1) == Crossings(g, order)
  {
    assert forall e :: e in g.edges ==> g.rank[g.edges[e].u] + 1 < g.height;
    hide Crosses;
  }

  /** The number of crossings of the drawing. */
  method CrossCount(g: Layered, order: map<Id, nat>) returns (cc: nat)
    requires Drawn(g, order)
    ensures cc == |Crossings(g, order)|
  {
    hide Crossings, CrossingsBefore, CrossingsAt, Drawn, PlacedAs;
    var ordering := Ordering(g, order);
    DrawnValid(g, order);
    CrossingsEnd(g, order);
    cc := 0;
    if |ordering| > 0 {
      for i := 1 to |ordering|
        invariant cc == |CrossingsBefore(g, order, i - 1)|
      {
        PlacedSize(ordering[i], g.Layer(i), order);
        CrossingsStep(g, order, i - 1);
        var added := TwoLayerCrossCount(g, order, i - 1, ordering[i - 1], ordering[i]);
        cc := cc + added;
      }
    }
  }

  lemma DrawnValid(g: Layered, order: map<Id, nat>)
    requires Drawn(g, order)
    ensures g.Valid()
  {
  }

  lemma PlacedSize(q: seq<Id>, s: set<Id>, order: map<Id, nat>)
    requires PlacedAs(q, s, order)
    ensures |q| == |s|
  {
    ListsSize(q, s);
  }
}
