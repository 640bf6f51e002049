/** Postorder numbers of a tree, by which ancestors can be told. */
module LowLims {
  import opened Base
  import opened Digraphs

  /** A digraph, by the successors of its nodes, with one node as its root. */
  datatype Rooted = Rooted(nodes: set<Id>, successors: map<Id, set<Id>>, root: Id) {
    /** The edges point away from the root: every other node has one predecessor, one level up. */
    ghost predicate IsTree(parent: map<Id, Id>, depth: map<Id, nat>) {
      && root in nodes && successors.Keys == depth.Keys == nodes && parent.Keys == nodes - {root}
      && (forall n :: n in parent ==> parent[n] in nodes && n in successors[parent[n]] && depth[n] == depth[parent[n]] + 1)
      && (forall n, c :: n in nodes && c in successors[n] ==> c in nodes && c in parent && parent[c] == n)
    }

    /** r is m or an ancestor of m. */
    ghost predicate Below(parent: map<Id, Id>, depth: map<Id, nat>, r: Id, m: Id)
      decreases if m in depth then depth[m] else 0
    {
      r == m || (m in parent && m in depth && parent[m] in depth && depth[parent[m]] < depth[m] && Below(parent, depth, r, parent[m]))
    }

    ghost function Subtree(parent: map<Id, Id>, depth: map<Id, nat>, r: Id): set<Id> {
      set m | m in nodes && Below(parent, depth, r, m)
    }
  }

  lemma {:induction false} BelowDepth(t: Rooted, parent: map<Id, Id>, depth: map<Id, nat>, r: Id, m: Id)
    requires t.IsTree(parent, depth) && r in t.nodes && m in t.nodes && t.Below(parent, depth, r, m)
    ensures r == m || depth[r] < depth[m]
    decreases depth[m]
  {
    if r != m {
      BelowDepth(t, parent, depth, r, parent[m]);
    }
  }

  /** What lies below n is n itself and what lies below its successors. */
  lemma {:induction false} BelowChild(t: Rooted, parent: map<Id, Id>, depth: map<Id, nat>, n: Id, m: Id) returns (c: Id)
    requires t.IsTree(parent, depth) && n in t.nodes && m in t.nodes && t.Below(parent, depth, n, m) && n != m
    ensures c in t.successors[n] && t.Below(parent, depth, c, m)
    decreases depth[m]
  {
    if parent[m] == n {
      c := m;
    } else {
      c := BelowChild(t, parent, depth, n, parent[m]);
    }
  }

  lemma {:induction false} ChildBelow(t: Rooted, parent: map<Id, Id>, depth: map<Id, nat>, n: Id, c: Id, m: Id)
    requires t.IsTree(parent, depth) && n in t.nodes && m in t.nodes && c in t.successors[n] && t.Below(parent, depth, c, m)
    ensures t.Below(parent, depth, n, m)
    decreases depth[m]
  {
    if m == c {
      assert t.Below(parent, depth, n, parent[c]);
    } else {
      ChildBelow(t, parent, depth, n, c, parent[m]);
    }
  }

  /** Of two nodes above m one is above the other. */
  lemma {:induction false} BelowBoth(t: Rooted, parent: map<Id, Id>, depth: map<Id, nat>, a: Id, b: Id, m: Id)
    requires t.IsTree(parent, depth) && a in t.nodes && b in t.nodes && m in t.nodes
    requires t.Below(parent, depth, a, m) && t.Below(parent, depth, b, m)
    ensures t.Below(parent, depth, a, b) || t.Below(parent, depth, b, a)
    decreases depth[m]
  {
    if m != a && m != b {
      BelowBoth(t, parent, depth, a, b, parent[m]);
    }
  }

  /** Different successors have nothing in common below them. */
  lemma SiblingsApart(t: Rooted, parent: map<Id, Id>, depth: map<Id, nat>, n: Id, c: Id, d: Id, m: Id)
    requires t.IsTree(parent, depth) && n in t.nodes && c in t.successors[n] && d in t.successors[n] && m in t.nodes
    requires t.Below(parent, depth, c, m) && t.Below(parent, depth, d, m)
    ensures c == d
  {
    assert c in t.nodes && d in t.nodes && depth[c] == depth[d];
    BelowBoth(t, parent, depth, c, d, m);
    if t.Below(parent, depth, c, d) {
      BelowDepth(t, parent, depth, c, d);
    } else {
      BelowDepth(t, parent, depth, d, c);
    }
  }

  lemma {:induction false} BelowTrans(t: Rooted, parent: map<Id, Id>, depth: map<Id, nat>, a: Id, b: Id, m: Id)
    requires t.IsTree(parent, depth) && a in t.nodes && b in t.nodes && m in t.nodes
    requires t.Below(parent, depth, a, b) && t.Below(parent, depth, b, m)
    ensures t.Below(parent, depth, a, m)
    decreases depth[m]
  {
    if b != m {
      BelowTrans(t, parent, depth, a, b, parent[m]);
    }
  }

  // ---------- the labels ----------

  function Min(a: nat, b: nat): (m: nat)
    ensures m <= a && m <= b && (m == a || m == b)
  {
    if b < a then b else a
  }

  datatype Labels = Labels(low: map<Id, nat>, lim: map<Id, nat>) {
    predicate Has(m: Id) {
      m in low && m in lim
    }

    /** Whether n is in the subtree of root, by the labels: the code's inSubtree. */
    predicate InSubtree(n: Id, root: Id)
      requires Has(n) && Has(root)
    {
      low[root] <= lim[n] <= lim[root]
    }
  }

  ghost predicate Taken(l: Labels, s: set<Id>, k: nat) {
    exists m :: m in s && l.Has(m) && l.lim[m] == k
  }

  /** The nodes of s have the limits from a up to b, once each, and their intervals tell which are below which. */
  ghost predicate Labelled(t: Rooted, parent: map<Id, Id>, depth: map<Id, nat>, l: Labels, s: set<Id>, a: nat, b: nat) {
    && (forall m :: m in s ==> l.Has(m) && a <= l.low[m] <= l.lim[m] < b)
    && (forall m, m' :: m in s && m' in s && l.lim[m] == l.lim[m'] ==> m == m')
    && (forall k: nat :: a <= k < b ==> Taken(l, s, k))
    && (forall r, m :: r in s && m in s ==> (l.InSubtree(m, r) <==> t.Below(parent, depth, r, m)))
  }

  lemma LabelledFrame(t: Rooted, parent: map<Id, Id>, depth: map<Id, nat>, l: Labels, l': Labels, s: set<Id>, a: nat, b: nat)
    requires Labelled(t, parent, depth, l, s, a, b)
    requires forall m :: m in s ==> l'.Has(m) && (l.Has(m) ==> l'.low[m] == l.low[m] && l'.lim[m] == l.lim[m])
    ensures Labelled(t, parent, depth, l', s, a, b)
  {
    hide Rooted.Below;
    forall k: nat | a <= k < b ensures Taken(l', s, k) {
      assert Taken(l, s, k);
      var m :| m in s && l.Has(m) && l.lim[m] == k;
      assert l'.Has(m);
    }
  }

  lemma LabelledJoin(t: Rooted, parent: map<Id, Id>, depth: map<Id, nat>, l: Labels, s: set<Id>, s': set<Id>, a: nat, b: nat, c: nat)
    requires a <= b <= c && Labelled(t, parent, depth, l, s, a, b) && Labelled(t, parent, depth, l, s', b, c)
    requires forall r, m :: r in s && m in s' ==> !t.Below(parent, depth, r, m) && !t.Below(parent, depth, m, r)
    ensures Labelled(t, parent, depth, l, s + s', a, c)
  {
    hide Rooted.Below, Taken;
    forall k: nat | a <= k < c ensures Taken(l, s + s', k) {
      if k < b {
        TakenMore(l, s, s + s', k);
      } else {
        TakenMore(l, s', s + s', k);
      }
    }
    forall r, m | r in s && m in s' ensures !l.InSubtree(m, r) && !l.InSubtree(r, m) {
      IntervalsApart(l, a, b, c, r, m);
    }
    hide Labels.InSubtree;
  }

  lemma IntervalsApart(l: Labels, a: nat, b: nat, c: nat, r: Id, m: Id)
    requires l.Has(r) && l.Has(m) && a <= l.low[r] <= l.lim[r] < b && b <= l.low[m] <= l.lim[m] < c
    ensures !l.InSubtree(m, r) && !l.InSubtree(r, m)
  {
  }

  lemma TakenMore(l: Labels, s: set<Id>, s': set<Id>, k: nat)
    requires Taken(l, s, k) && s <= s'
    ensures Taken(l, s', k)
  {
  }

  /** n comes last, above all of s. */
  lemma LabelledTop(t: Rooted, parent: map<Id, Id>, depth: map<Id, nat>, l: Labels, s: set<Id>, a: nat, b: nat, n: Id)
    requires a <= b && Labelled(t, parent, depth, l, s, a, b) && n !in s
    requires forall m :: m in s ==> t.Below(parent, depth, n, m) && !t.Below(parent, depth, m, n)
    ensures Labelled(t, parent, depth, Labels(l.low[n := a], l.lim[n := b]), s + {n}, a, b + 1)
  {
    SelfBelow(t, parent, depth, n);
    hide Rooted.Below;
    var l' := Labels(l.low[n := a], l.lim[n := b]);
    TakenTop(l, l', s, a, b, n);
    LabelledFrame(t, parent, depth, l, l', s, a, b);
    LabelledAdd(t, parent, depth, l', s, a, b, n);
  }

  lemma SelfBelow(t: Rooted, parent: map<Id, Id>, depth: map<Id, nat>, n: Id)
    ensures t.Below(parent, depth, n, n)
  {
  }

  lemma TakenTop(l: Labels, l': Labels, s: set<Id>, a: nat, b: nat, n: Id)
    requires l' == Labels(l.low[n := a], l.lim[n := b]) && a <= b && n !in s && (forall k: nat :: a <= k < b ==> Taken(l, s, k))
    ensures forall k: nat :: a <= k < b + 1 ==> Taken(l', s + {n}, k)
  {
    forall k: nat | a <= k < b + 1 ensures Taken(l', s + {n}, k) {
      if k < b {
        assert Taken(l, s, k);
        var m :| m in s && l.Has(m) && l.lim[m] == k;
        assert l'.Has(m);
      } else {
        assert l'.Has(n);
      }
    }
  }

  lemma LabelledAdd(t: Rooted, parent: map<Id, Id>, depth: map<Id, nat>, l: Labels, s: set<Id>, a: nat, b: nat, n: Id)
    requires Labelled(t, parent, depth, l, s, a, b) && n !in s && l.Has(n) && l.low[n] == a && l.lim[n] == b && a <= b
    requires t.Below(parent, depth, n, n) && forall k: nat :: a <= k < b + 1 ==> Taken(l, s + {n}, k)
    requires forall m :: m in s ==> t.Below(parent, depth, n, m) && !t.Below(parent, depth, m, n)
    ensures Labelled(t, parent, depth, l, s + {n}, a, b + 1)
  {
    hide Rooted.Below, Taken;
  }

  // ---------- the algorithm ----------

  /** The nodes below the first successors. */
  ghost function Covered(t: Rooted, parent: map<Id, Id>, depth: map<Id, nat>, cs: set<Id>): set<Id> {
    set m | m in t.nodes && exists c :: c in cs && t.Below(parent, depth, c, m)
  }

  lemma CoveredStep(t: Rooted, parent: map<Id, Id>, depth: map<Id, nat>, n: Id, cs: set<Id>, c: Id)
    requires t.IsTree(parent, depth) && n in t.nodes && cs <= t.successors[n] && c in t.successors[n] && c !in cs
    ensures Covered(t, parent, depth, cs + {c}) == Covered(t, parent, depth, cs) + t.Subtree(parent, depth, c)
    ensures forall r, m :: r in Covered(t, parent, depth, cs) && m in t.Subtree(parent, depth, c) ==>
        !t.Below(parent, depth, r, m) && !t.Below(parent, depth, m, r)
  {
    hide Rooted.Below, Rooted.IsTree;
    SuccessorsIn(t, parent, depth, n);
    forall r, m | r in Covered(t, parent, depth, cs) && m in t.Subtree(parent, depth, c)
      ensures !t.Below(parent, depth, r, m) && !t.Below(parent, depth, m, r)
    {
      var d :| d in cs && t.Below(parent, depth, d, r);
      if t.Below(parent, depth, r, m) {
        BelowTrans(t, parent, depth, d, r, m);
        SiblingsApart(t, parent, depth, n, c, d, m);
      }
      if t.Below(parent, depth, m, r) {
        BelowTrans(t, parent, depth, c, m, r);
        SiblingsApart(t, parent, depth, n, c, d, r);
      }
    }
  }

  lemma SuccessorsIn(t: Rooted, parent: map<Id, Id>, depth: map<Id, nat>, n: Id)
    requires t.IsTree(parent, depth) && n in t.nodes
    ensures t.successors[n] <= t.nodes && n in t.successors && depth.Keys == t.nodes
    ensures forall c :: c in t.successors[n] ==> depth[c] == depth[n] + 1
  {
    hide Rooted.Below;
  }

  lemma CoveredAll(t: Rooted, parent: map<Id, Id>, depth: map<Id, nat>, n: Id)
    requires t.IsTree(parent, depth) && n in t.nodes
    ensures Covered(t, parent, depth, t.successors[n]) + {n} == t.Subtree(parent, depth, n)
    ensures n !in Covered(t, parent, depth, t.successors[n]) && Covered(t, parent, depth, {}) == {}
    ensures forall m :: m in Covered(t, parent, depth, t.successors[n]) ==> t.Below(parent, depth, n, m) && !t.Below(parent, depth, m, n)
  {
    SuccessorsIn(t, parent, depth, n);
    assert t.Below(parent, depth, n, n);
    hide Rooted.Below, Rooted.IsTree;
    forall m | m in Covered(t, parent, depth, t.successors[n])
      ensures t.Below(parent, depth, n, m) && m != n && !t.Below(parent, depth, m, n)
    {
      var c :| c in t.successors[n] && t.Below(parent, depth, c, m);
      ChildBelow(t, parent, depth, n, c, m);
      BelowDepth(t, parent, depth, c, m);
      if t.Below(parent, depth, m, n) {
        BelowDepth(t, parent, depth, m, n);
      }
    }
    forall m | m in t.Subtree(parent, depth, n) && m != n ensures m in Covered(t, parent, depth, t.successors[n]) {
      var c := BelowChild(t, parent, depth, n, m);
    }
  }

  /** Only the labels of nodes in s have been set. */
  ghost predicate OnlySets(l: Labels, l': Labels, s: set<Id>) {
    forall m :: m !in s && l.Has(m) ==> l'.Has(m) && l'.low[m] == l.low[m] && l'.lim[m] == l.lim[m]
  }

  /** The number of levels below a node bounds the recursion. */
  ghost function Levels(t: Rooted, depth: map<Id, nat>, n: Id): set<Id> {
    set m | m in t.nodes && m in depth && n in depth && depth[m] > depth[n]
  }

  /** Labels the subtree of n, counting on from `count`. */
  method Label(t: Rooted, ghost parent: map<Id, Id>, ghost depth: map<Id, nat>, l: Labels, count: nat, n: Id)
    returns (l': Labels, count': nat)
    requires t.IsTree(parent, depth) && n in t.nodes
    ensures count < count' && Labelled(t, parent, depth, l', t.Subtree(parent, depth, n), count, count')
    ensures OnlySets(l, l', t.Subtree(parent, depth, n)) && l'.Has(n) && l'.low[n] == count
    decreases Levels(t, depth, n)
  {
    hide *;
    SuccessorsIn(t, parent, depth, n);
    CoveredAll(t, parent, depth, n);
    l', count' := l, count;
    var low := count;
    var children := Listing(t.successors[n]);
    UptoEnds(children, t.successors[n]);
    NothingLabelled(t, parent, depth, l, count);
    for i := 0 to |children|
      invariant count <= count' && low == count
      invariant Labelled(t, parent, depth, l', Covered(t, parent, depth, Upto(children, i)), count, count')
      invariant OnlySets(l, l', Covered(t, parent, depth, Upto(children, i)))
    {
      var child := children[i];
      UptoStep(children, t.successors[n], i);
      FewerLevels(t, parent, depth, n, child);
      ghost var done, s, l1, count1 := Covered(t, parent, depth, Upto(children, i)), t.Subtree(parent, depth, child), l', count';
      CoveredStep(t, parent, depth, n, Upto(children, i), child);
      l', count' := Label(t, parent, depth, l', count', child);
      HasOf(l', child);
      low := Min(low, l'.low[child]);
      LabelledKept(t, parent, depth, l1, l', done, s, count, count1);
      LabelledJoin(t, parent, depth, l', done, s, count, count1, count');
      SetsOn(l, l1, l', done, s);
    }
    ghost var below := Covered(t, parent, depth, t.successors[n]);
    LabelledTop(t, parent, depth, l', below, count, count', n);
    SetsTop(l, l', below, n, low, count');
    l' := Labels(l'.low[n := low], l'.lim[n := count']);
    count' := count' + 1;
  }

  lemma HasOf(l: Labels, m: Id)
    requires l.Has(m)
    ensures m in l.low && m in l.lim
  {
  }

  lemma NothingLabelled(t: Rooted, parent: map<Id, Id>, depth: map<Id, nat>, l: Labels, a: nat)
    ensures Labelled(t, parent, depth, l, {}, a, a) && OnlySets(l, l, {})
  {
  }

  lemma FewerLevels(t: Rooted, parent: map<Id, Id>, depth: map<Id, nat>, n: Id, c: Id)
    requires t.IsTree(parent, depth) && n in t.nodes && c in t.successors[n]
    ensures Levels(t, depth, c) < Levels(t, depth, n)
  {
    hide Rooted.Below;
    SuccessorsIn(t, parent, depth, n);
    assert c in Levels(t, depth, n) && c !in Levels(t, depth, c);
  }

  lemma LabelledKept(t: Rooted, parent: map<Id, Id>, depth: map<Id, nat>, l: Labels, l': Labels, s: set<Id>, s': set<Id>, a: nat, b: nat)
    requires Labelled(t, parent, depth, l, s, a, b) && OnlySets(l, l', s')
    requires forall r, m :: r in s && m in s' ==> !t.Below(parent, depth, r, m) && !t.Below(parent, depth, m, r)
    ensures Labelled(t, parent, depth, l', s, a, b)
  {
    forall m | m in s ensures l.Has(m) && m !in s' {
      assert t.Below(parent, depth, m, m);
    }
    hide Rooted.Below;
    LabelledFrame(t, parent, depth, l, l', s, a, b);
  }

  lemma SetsOn(l: Labels, l1: Labels, l2: Labels, s: set<Id>, s': set<Id>)
    requires OnlySets(l, l1, s) && OnlySets(l1, l2, s')
    ensures OnlySets(l, l2, s + s')
  {
  }

  lemma SetsTop(l: Labels, l': Labels, s: set<Id>, n: Id, low: nat, lim: nat)
    requires OnlySets(l, l', s)
    ensures var l2 := Labels(l'.low[n := low], l'.lim[n := lim]); OnlySets(l, l2, s + {n}) && l2.Has(n) && l2.low[n] == low
  {
  }

  /** The labels tell exactly which nodes are in which subtrees, and the limits number the nodes from 0 on. */
  method ComputeLowLim(t: Rooted, ghost parent: map<Id, Id>, ghost depth: map<Id, nat>) returns (l: Labels)
    requires t.IsTree(parent, depth)
    ensures forall n :: n in t.nodes ==> l.Has(n) && l.lim[n] < |t.nodes|
    ensures forall n, m :: n in t.nodes && m in t.nodes && l.Has(n) && l.Has(m) && l.lim[n] == l.lim[m] ==> n == m
    ensures forall n, r :: n in t.nodes && r in t.nodes && l.Has(n) && l.Has(r) ==> (l.InSubtree(n, r) <==> t.Below(parent, depth, r, n))
  {
    hide Rooted.Below, Labelled, OnlySets;
    var count;
    l, count := Label(t, parent, depth, Labels(map[], map[]), 0, t.root);
    AllBelow(t, parent, depth);
    LabelledCount(t, parent, depth, l, t.nodes, 0, count);
    LabelledMeans(t, parent, depth, l, t.nodes, 0, count);
  }

  lemma LabelledMeans(t: Rooted, parent: map<Id, Id>, depth: map<Id, nat>, l: Labels, s: set<Id>, a: nat, b: nat)
    requires Labelled(t, parent, depth, l, s, a, b)
    ensures forall m :: m in s ==> l.Has(m) && a <= l.low[m] <= l.lim[m] < b
    ensures forall m, m' :: m in s && m' in s && l.lim[m] == l.lim[m'] ==> m == m'
    ensures forall r, m :: r in s && m in s ==> (l.InSubtree(m, r) <==> t.Below(parent, depth, r, m))
  {
    hide Rooted.Below;
  }

  lemma AllBelow(t: Rooted, parent: map<Id, Id>, depth: map<Id, nat>)
    requires t.IsTree(parent, depth)
    ensures t.Subtree(parent, depth, t.root) == t.nodes
  {
    forall m | m in t.nodes ensures t.Below(parent, depth, t.root, m) {
      RootAbove(t, parent, depth, m);
    }
  }

  lemma {:induction false} RootAbove(t: Rooted, parent: map<Id, Id>, depth: map<Id, nat>, m: Id)
    requires t.IsTree(parent, depth) && m in t.nodes
    ensures t.Below(parent, depth, t.root, m)
    decreases depth[m]
  {
    if m != t.root {
      RootAbove(t, parent, depth, parent[m]);
    }
  }

  /** As many limits as nodes. */
  lemma {:induction false} LabelledCount(t: Rooted, parent: map<Id, Id>, depth: map<Id, nat>, l: Labels, s: set<Id>, a: nat, b: nat)
    requires a <= b && Labelled(t, parent, depth, l, s, a, b)
    ensures b - a == |s|
  {
    hide Rooted.Below;
    LimitsCount(l, s, a, b);
  }

  lemma {:induction false} LimitsCount(l: Labels, s: set<Id>, a: nat, b: nat)
    requires a <= b && (forall m :: m in s ==> l.Has(m) && a <= l.lim[m] < b)
    requires forall m, m' :: m in s && m' in s && l.Has(m) && l.Has(m') && l.lim[m] == l.lim[m'] ==> m == m'
    requires forall k: nat :: a <= k < b ==> Taken(l, s, k)
    ensures b - a == |s|
    decreases b
  {
    if a == b {
      assert s == {};
    } else {
      assert Taken(l, s, b - 1);
      var m :| m in s && l.Has(m) && l.lim[m] == b - 1;
      forall k: nat | a <= k < b - 1 ensures Taken(l, s - {m}, k) {
        assert Taken(l, s, k);
        var m' :| m' in s && l.Has(m') && l.lim[m'] == k;
        assert m' in s - {m};
      }
      LimitsCount(l, s - {m}, a, b - 1);
    }
  }
}
