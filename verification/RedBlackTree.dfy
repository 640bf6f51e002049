/** The red-black tree that keeps its nodes threaded in order. */
module RedBlackTrees {
  import opened Base
  import opened RedBlackShapes

  function TurnLeft(t: Shape): Shape
    requires t.T? && t.r.T?
  {
    T(T(t.l, t.n, t.red, t.r.l), t.r.n, t.r.red, t.r.r)
  }

  function TurnRight(t: Shape): Shape
    requires t.T? && t.l.T?
  {
    T(t.l.l, t.l.n, t.l.red, T(t.l.r, t.n, t.red, t.r))
  }

  /** The threads of q's nodes are the same. */
  ghost predicate SameThreads(m: Snapshot, m': Snapshot) {
    m.Keys == m'.Keys && forall x :: x in m ==> m'[x].P == m[x].P && m'[x].N == m[x].N
  }

  lemma TurnNodes(t: Shape)
    ensures t.T? && t.r.T? ==> Nodes(TurnLeft(t)) == Nodes(t) && InOrder(TurnLeft(t)) == InOrder(t)
    ensures t.T? && t.l.T? ==> Nodes(TurnRight(t)) == Nodes(t) && InOrder(TurnRight(t)) == InOrder(t)
  {
    if t.T? && t.r.T? {
      TurnedNodes(t.l, t.n, t.red, t.r.l, t.r.n, t.r.red, t.r.r);
    }
    if t.T? && t.l.T? {
      TurnedNodes(t.l.l, t.l.n, t.l.red, t.l.r, t.n, t.red, t.r);
    }
  }

  lemma TurnedNodes(a: Shape, x: Node, red: bool, b: Shape, y: Node, red': bool, c: Shape)
    ensures Nodes(T(T(a, x, red, b), y, red', c)) == Nodes(T(a, x, red, T(b, y, red', c)))
    ensures InOrder(T(T(a, x, red, b), y, red', c)) == InOrder(T(a, x, red, T(b, y, red', c)))
  {
    NodesOf(T(a, x, red, b), y, red', c);
    NodesOf(a, x, red, b);
    NodesOf(a, x, red, T(b, y, red', c));
    NodesOf(b, y, red', c);
    hide *;
  }

  lemma NodesOf(l: Shape, x: Node, red: bool, r: Shape)
    ensures Nodes(T(l, x, red, r)) == Nodes(l) + {x} + Nodes(r) && InOrder(T(l, x, red, r)) == InOrder(l) + [x] + InOrder(r)
  {
  }

  /** What a rotation at t's top finds. */
  ghost predicate TurnsLeft(m: Snapshot, c: Ctx, p: Node, q: Node, b: Node?) {
    && p in m && q in m && p != q && m[p].R == q && m[p].U == Parent(c) && m[q].L == b
    && (b != null ==> b in m && b != p && b != q && b != Parent(c))
    && (!c.Hole? ==> c.n in m && c.n != p && c.n != q && (c.Left? <==> m[c.n].L == p))
  }

  ghost predicate TurnsRight(m: Snapshot, c: Ctx, p: Node, q: Node, b: Node?) {
    && p in m && q in m && p != q && m[p].L == q && m[p].U == Parent(c) && m[q].R == b
    && (b != null ==> b in m && b != p && b != q && b != Parent(c))
    && (!c.Hole? ==> c.n in m && c.n != p && c.n != q && (c.Left? <==> m[c.n].L == p))
  }

  lemma TurnsLeftParts(m: Snapshot, c: Ctx, p: Node, q: Node, b: Node?)
    requires TurnsLeft(m, c, p, q, b)
    ensures p in m && q in m && p != q && m[p].R == q && m[q].L == b && q != Parent(c) && Hangs(m, c, p)
    ensures b != null ==> b in m && b != p && b != q && b != Parent(c)
  {
  }

  lemma TurnsRightParts(m: Snapshot, c: Ctx, p: Node, q: Node, b: Node?)
    requires TurnsRight(m, c, p, q, b)
    ensures p in m && q in m && p != q && m[p].L == q && m[q].R == b && q != Parent(c) && Hangs(m, c, p)
    ensures b != null ==> b in m && b != p && b != q && b != Parent(c)
  {
  }

  /** The cells after p has gone below q, on the left or on the right, with q's former child b. */
  ghost predicate Tied(m: Snapshot, m': Snapshot, p: Node, q: Node, b: Node?, left: bool) {
    && m'.Keys == m.Keys && p in m && q in m && (b != null ==> b in m)
    && m'[p] == (if left then m[p].(R := b, U := q) else m[p].(L := b, U := q))
    && m'[q] == (if left then m[q].(L := p) else m[q].(R := p))
    && (b != null ==> m'[b] == m[b].(U := p))
    && forall x :: x in m && x != p && x != q && x != b ==> m'[x] == m[x]
  }

  lemma SupplantedAt(m: Snapshot, c: Ctx, p: Node, q: Node)
    requires Hangs(m, c, p) && q in m && q != p && q != Parent(c)
    ensures WithUp(WithChild(m, c, q), q, Parent(c))[q].L == m[q].L && WithUp(WithChild(m, c, q), q, Parent(c))[q].R == m[q].R
  {
  }

  lemma TurnedLeftMade(m: Snapshot, m': Snapshot, c: Ctx, a: Shape, p: Node, b: Shape, q: Node, r: Shape)
    requires TurnsLeft(m, c, p, q, Top(b)) && Tied(WithUp(WithChild(m, c, q), q, Parent(c)), m', p, q, Top(b), true)
    ensures TurnedLeft(m, m', c, a, p, b, q, r)
  {
  }

  lemma TurnedRightMade(m: Snapshot, m': Snapshot, c: Ctx, a: Shape, q: Node, b: Shape, p: Node, r: Shape)
    requires TurnsRight(m, c, p, q, Top(b)) && Tied(WithUp(WithChild(m, c, q), q, Parent(c)), m', p, q, Top(b), false)
    ensures TurnedRight(m, m', c, a, q, b, p, r)
  {
  }

  lemma SnapAll(nodes: set<Node>)
    ensures Snap(nodes).Keys == nodes
    ensures forall x :: x in nodes ==> Snap(nodes)[x] == Cell(x.L, x.R, x.U, x.C, x.P, x.N)
  {
  }

  lemma TurnsContext(m: Snapshot, c: Ctx, t: Shape)
    requires Linked(m, c, t) && t.T? && !c.Hole?
    ensures c.n in m && c.n !in Nodes(t) && (c.Left? <==> m[c.n].L == t.n)
  {
    TopIn(c.sib);
  }

  lemma TurnsLeftNow(m: Snapshot, c: Ctx, t: Shape)
    requires Linked(m, c, t) && t.T? && t.r.T?
    ensures TurnsLeft(m, c, t.n, t.r.n, Top(t.r.l))
  {
    if !c.Hole? {
      TurnsContext(m, c, t);
    }
    assert Fits(m, t.r, t.n) && Distinct(t.r) && Fits(m, t.r.l, t.r.n);
    TopIn(t.r.l);
  }

  lemma TurnsRightNow(m: Snapshot, c: Ctx, t: Shape)
    requires Linked(m, c, t) && t.T? && t.l.T?
    ensures TurnsRight(m, c, t.n, t.l.n, Top(t.l.r))
  {
    if !c.Hole? {
      TurnsContext(m, c, t);
    }
    assert Fits(m, t.l, t.n) && Distinct(t.l) && Fits(m, t.l.r, t.l.n);
    TopIn(t.l.r);
  }

  lemma Painted(m: Snapshot, m': Snapshot, c: Ctx, t: Shape, red: bool)
    requires Linked(m, c, t) && t.T? && t.n in m && m' == m[t.n := m[t.n].(C := red)]
    ensures Linked(m', c, t.(red := red)) && Nodes(t.(red := red)) == Nodes(t)
  {
    FitsFrame(m, m', t.l, t.n);
    FitsFrame(m, m', t.r, t.n);
    TopIn(t);
    FitsCFrame(m, m', c, t.n);
  }

  lemma LeftThreads(m: Snapshot, m': Snapshot, c: Ctx, a: Shape, p: Node, b: Shape, q: Node, r: Shape)
    requires TurnedLeft(m, m', c, a, p, b, q, r)
    ensures SameThreads(m, m')
  {
  }

  lemma RightThreads(m: Snapshot, m': Snapshot, c: Ctx, a: Shape, q: Node, b: Shape, p: Node, r: Shape)
    requires TurnedRight(m, m', c, a, q, b, p, r)
    ensures SameThreads(m, m')
  {
  }

  lemma PaintThreads(m: Snapshot, m': Snapshot, x: Node, red: bool)
    requires x in m && m' == m[x := m[x].(C := red)]
    ensures SameThreads(m, m')
  {
  }

  lemma RootOf(c: Ctx, p: Node, q: Node)
    ensures Root(c, q) == if c.Hole? then q else Root(c, p)
    ensures c.Hole? ==> Root(c, p) == p
  {
  }

  lemma TopShape(t: Shape)
    ensures t.T? ==> Top(t) == t.n
  {
  }

  lemma LeftShape(t: Shape)
    requires t.T? && t.r.T?
    ensures TurnLeft(t) == T(T(t.l, t.n, t.red, t.r.l), t.r.n, t.r.red, t.r.r) && Top(TurnLeft(t)) == t.r.n && Top(t) == t.n
  {
  }

  lemma RightShape(t: Shape)
    requires t.T? && t.l.T?
    ensures TurnRight(t) == T(t.l.l, t.l.n, t.l.red, T(t.l.r, t.n, t.red, t.r)) && Top(TurnRight(t)) == t.l.n && Top(t) == t.n
  {
  }

  // ---------- insertion: the shapes ----------

  /** A red tree in place: the only fault may be a red node above it, or its being the root. */
  ghost predicate Inserting(c: Ctx, t: Shape) {
    IsRed(t) && Balanced(t) && BalancedC(c, Height(t), false) && BlackTop(c)
  }

  function PaintC(c: Ctx, red: bool): (r: Ctx)
    ensures !c.Hole? ==> !r.Hole? && r.up == c.up && r.n == c.n && r.red == red && r.sib == c.sib && (r.Left? <==> c.Left?)
  {
    match c
    case Hole => c
    case Left(up, n, _, sib) => Left(up, n, red, sib)
    case Right(up, n, _, sib) => Right(up, n, red, sib)
  }

  function WithSib(c: Ctx, sib: Shape): (r: Ctx)
    ensures !c.Hole? ==> !r.Hole? && r.up == c.up && r.n == c.n && r.red == c.red && r.sib == sib && (r.Left? <==> c.Left?)
  {
    match c
    case Hole => c
    case Left(up, n, red, _) => Left(up, n, red, sib)
    case Right(up, n, red, _) => Right(up, n, red, sib)
  }

  /** The parent and the uncle black, the grandparent red. */
  function Recoloured(c: Ctx, t: Shape): Shape
    requires !c.Hole? && !c.up.Hole? && c.up.sib.T?
  {
    Up(WithSib(PaintC(c.up, true), c.up.sib.(red := false)), Up(PaintC(c, false), t))
  }

  lemma RecolouredInserting(c: Ctx, t: Shape)
    requires Inserting(c, t) && !c.Hole? && c.red && !c.up.Hole? && IsRed(c.up.sib)
    ensures Inserting(c.up.up, Recoloured(c, t)) && InOrder(Recoloured(c, t)) == InOrder(Up(c.up, Up(c, t)))
  {
    assert BalancedC(c.up, Height(t), true);
    assert BlackTop(c.up);
  }

  /** Below a red parent there is a black grandparent. */
  lemma HasGrandparent(c: Ctx, t: Shape)
    requires Inserting(c, t) && !c.Hole? && c.red
    ensures !c.up.Hole? && !c.up.red
  {
    assert BalancedC(c.up, Height(t), true);
  }

  /** An inner grandchild becomes an outer one. */
  lemma StraightLeft(c: Ctx, t: Shape)
    requires Inserting(c, t) && c.Right? && c.red && !IsRed(c.up.sib)
    ensures t.T? && TurnLeft(Up(c, t)) == Up(Left(c.up, t.n, t.red, t.r), T(c.sib, c.n, c.red, t.l))
    ensures Inserting(Left(c.up, t.n, t.red, t.r), T(c.sib, c.n, c.red, t.l))
  {
  }

  lemma StraightRight(c: Ctx, t: Shape)
    requires Inserting(c, t) && c.Left? && c.red && !IsRed(c.up.sib)
    ensures t.T? && TurnRight(Up(c, t)) == Up(Right(c.up, t.n, t.red, t.l), T(t.r, c.n, c.red, c.sib))
    ensures Inserting(Right(c.up, t.n, t.red, t.l), T(t.r, c.n, c.red, c.sib))
  {
  }

  /** The parent of an outer grandchild takes the grandparent's place. */
  lemma RaisedLeft(c: Ctx, t: Shape)
    requires Inserting(c, t) && c.Left? && c.red && c.up.Left? && !IsRed(c.up.sib)
    ensures TurnRight(Up(PaintC(c.up, true), Up(PaintC(c, false), t))) == Up(Left(c.up.up, c.n, false, T(c.sib, c.up.n, true, c.up.sib)), t)
    ensures Inserting(Left(c.up.up, c.n, false, T(c.sib, c.up.n, true, c.up.sib)), t)
  {
    assert BalancedC(c.up, Height(t), true);
    assert BlackTop(c.up);
  }

  lemma RaisedRight(c: Ctx, t: Shape)
    requires Inserting(c, t) && c.Right? && c.red && c.up.Right? && !IsRed(c.up.sib)
    ensures TurnLeft(Up(PaintC(c.up, true), Up(PaintC(c, false), t))) == Up(Right(c.up.up, c.n, false, T(c.up.sib, c.up.n, true, c.sib)), t)
    ensures Inserting(Right(c.up.up, c.n, false, T(c.up.sib, c.up.n, true, c.sib)), t)
  {
    assert BalancedC(c.up, Height(t), true);
    assert BlackTop(c.up);
  }

  /** All is well when the root has been painted black. */
  lemma InsertingEnds(c: Ctx, t: Shape)
    requires Inserting(c, t) && (c.Hole? || !c.red)
    ensures Plug(c, t).T? && Balanced(Plug(c, t).(red := false)) && InOrder(Plug(c, t).(red := false)) == InOrder(Plug(c, t))
  {
    PlugBalanced(c, t);
    if c.Hole? {
      assert Plug(c, t) == t;
    }
    PlugTree(c, t);
  }

  lemma {:induction false} PlugTree(c: Ctx, t: Shape)
    requires t.T?
    ensures Plug(c, t).T?
    decreases c
  {
    if !c.Hole? {
      PlugTree(c.up, Up(c, t));
    }
  }

  lemma SameInOrder(c: Ctx, t: Shape, t': Shape)
    requires InOrder(t') == InOrder(t)
    ensures InOrder(Plug(c, t')) == InOrder(Plug(c, t))
  {
    PlugInOrder(c, t);
    PlugInOrder(c, t');
  }

  function RaisedLeftCtx(c: Ctx): Ctx
    requires !c.Hole? && !c.up.Hole?
  {
    Left(c.up.up, c.n, false, T(c.sib, c.up.n, true, c.up.sib))
  }

  function RaisedRightCtx(c: Ctx): Ctx
    requires !c.Hole? && !c.up.Hole?
  {
    Right(c.up.up, c.n, false, T(c.up.sib, c.up.n, true, c.sib))
  }

  lemma RaisedIs(c: Ctx)
    requires !c.Hole? && !c.up.Hole?
    ensures RaisedLeftCtx(c) == Left(c.up.up, c.n, false, T(c.sib, c.up.n, true, c.up.sib))
    ensures RaisedRightCtx(c) == Right(c.up.up, c.n, false, T(c.up.sib, c.up.n, true, c.sib))
  {
  }

  lemma SiblingTop(c: Ctx)
    ensures !c.Hole? && c.sib.T? ==> Top(c.sib) == c.sib.n
    ensures !c.Hole? && c.sib.Nil? ==> Top(c.sib) == null
  {
  }

  lemma InsertingTop(c: Ctx, t: Shape)
    requires Inserting(c, t)
    ensures t.T? && Top(t) == t.n && t.red
  {
  }

  lemma RecolouredTop(c: Ctx, t: Shape)
    requires !c.Hole? && !c.up.Hole? && c.up.sib.T?
    ensures Top(Recoloured(c, t)) == c.up.n && Size(c.up.up) < Size(c)
  {
  }

  lemma SameSelf(m: Snapshot)
    ensures SameThreads(m, m)
  {
  }

  lemma ParentIs(c: Ctx)
    ensures Parent(c) == if c.Hole? then null else c.n
  {
  }

  lemma RaisedInOrder(c: Ctx, t: Shape)
    requires !c.Hole? && !c.up.Hole?
    ensures c.Left? && c.up.Left? ==>
        InOrder(TurnRight(Up(PaintC(c.up, true), Up(PaintC(c, false), t)))) == InOrder(Up(c.up, Up(c, t)))
    ensures c.Right? && c.up.Right? ==>
        InOrder(TurnLeft(Up(PaintC(c.up, true), Up(PaintC(c, false), t)))) == InOrder(Up(c.up, Up(c, t)))
  {
  }

  lemma UpParts(c: Ctx, t: Shape)
    requires !c.Hole?
    ensures Up(c, t) == if c.Left? then T(t, c.n, c.red, c.sib) else T(c.sib, c.n, c.red, t)
    ensures Up(c, t).T? && Up(c, t).n == c.n && Top(Up(c, t)) == c.n
    ensures forall red :: Up(PaintC(c, red), t) == Up(c, t).(red := red)
  {
  }

  /** The same place, looked at from its sibling. */
  function Flip(c: Ctx, t: Shape): Ctx
    requires !c.Hole?
  {
    if c.Left? then Right(c.up, c.n, c.red, t) else Left(c.up, c.n, c.red, t)
  }

  lemma FlipUp(c: Ctx, t: Shape)
    requires !c.Hole?
    ensures !Flip(c, t).Hole? && Up(Flip(c, t), c.sib) == Up(c, t) && Flip(c, t).up == c.up
  {
  }

  lemma FlipBack(c: Ctx, t: Shape, u: Shape)
    requires !c.Hole?
    ensures Flip(WithSib(c, u), t) == Flip(c, t)
  {
  }

  lemma IsRedMeans(t: Shape)
    ensures IsRed(t) <==> t.T? && t.red
  {
  }

  lemma RecolouredIs(c: Ctx, t: Shape)
    requires !c.Hole? && !c.up.Hole? && c.up.sib.T?
    ensures Recoloured(c, t) == Up(WithSib(PaintC(c.up, true), c.up.sib.(red := false)), Up(PaintC(c, false), t))
    ensures Up(WithSib(c.up, c.up.sib.(red := false)), Up(PaintC(c, false), t)).T?
    ensures Recoloured(c, t) == Up(WithSib(c.up, c.up.sib.(red := false)), Up(PaintC(c, false), t)).(red := true)
  {
  }

  lemma ThreadsOn(m: Snapshot, m': Snapshot, m'': Snapshot)
    requires SameThreads(m, m') && SameThreads(m', m'')
    ensures SameThreads(m, m'')
  {
  }

  function Size(c: Ctx): nat {
    if c.Hole? then 0 else 1 + Size(c.up)
  }

  lemma TopOf(t: Shape)
    ensures Top(t) == null <==> t.Nil?
    ensures t.T? ==> Top(t) == t.n
  {
  }

  lemma GoLeft(c: Ctx, t: Shape)
    requires t.T?
    ensures Up(Left(c, t.n, t.red, t.r), t.l) == t && Before(Left(c, t.n, t.red, t.r)) == Before(c)
  {
  }

  function Last(q: seq<Node>): Node? {
    if q == [] then null else q[|q| - 1]
  }

  function Head(q: seq<Node>): Node? {
    if q == [] then null else q[0]
  }

  /** The cells after node has been put into the hole of c, in order between a and b. */
  ghost predicate Entered(m: Snapshot, m': Snapshot, c: Ctx, node: Node, a: seq<Node>, b: seq<Node>) {
    && m'.Keys == m.Keys + {node} && node !in m
    && m'[node] == Cell(null, null, Parent(c), true, Last(a), Head(b))
    && (forall x :: x in m ==> m'[x].U == m[x].U && m'[x].C == m[x].C)
    && (forall x :: x in m ==> m'[x].L == if c.Left? && x == c.n then node else m[x].L)
    && (forall x :: x in m ==> m'[x].R == if c.Right? && x == c.n then node else m[x].R)
    && (forall x :: x in m ==> m'[x].N == if x == Last(a) then node else m[x].N)
    && (forall x :: x in m ==> m'[x].P == if x == Head(b) then node else m[x].P)
  }

  lemma EnteredMade(m: Snapshot, m0: Snapshot, m': Snapshot, c: Ctx, node: Node, a: seq<Node>, b: seq<Node>)
    requires Attached(m, m0, c, node, a, b) && m'.Keys == m0.Keys + {node} && (forall x :: x in m0 ==> m'[x] == m0[x])
    requires m'[node] == Cell(null, null, Parent(c), true, Last(a), Head(b))
    ensures Entered(m, m', c, node, a, b)
  {
    hide Last, Head, Parent;
  }

  lemma EnteredLinked(m: Snapshot, m': Snapshot, c: Ctx, node: Node, a: seq<Node>, b: seq<Node>)
    requires Entered(m, m', c, node, a, b) && Linked(m, c, Nil) && NodesC(c) == m.Keys
    ensures Linked(m', c, T(Nil, node, true, Nil)) && NodesC(c) + Nodes(T(Nil, node, true, Nil)) == m.Keys + {node}
  {
    if !c.Hole? {
      ParentIn(c);
      MovedAbove(m, m', c, null, node);
    }
  }

  lemma EnteredBefore(m: Snapshot, m': Snapshot, c: Ctx, node: Node, a: seq<Node>, b: seq<Node>, i: nat)
    requires Entered(m, m', c, node, a, b) && ThreadedAt(m, a + b, i) && NoDup(a + b) && i < |a|
    ensures ThreadedAt(m', a + [node] + b, i)
  {
    var q, r := a + b, a + [node] + b;
    assert r[i] == q[i] == a[i] && (i > 0 ==> r[i - 1] == q[i - 1]);
    assert i + 1 < |a| ==> r[i + 1] == q[i + 1] == a[i + 1];
    assert q[|a| - 1] == a[|a| - 1] && r[|a|] == node;
    assert |b| > 0 ==> q[|a|] == b[0];
  }

  lemma EnteredAfter(m: Snapshot, m': Snapshot, c: Ctx, node: Node, a: seq<Node>, b: seq<Node>, i: nat)
    requires Entered(m, m', c, node, a, b) && ThreadedAt(m, a + b, |a| + i) && NoDup(a + b) && i < |b|
    ensures ThreadedAt(m', a + [node] + b, |a| + 1 + i)
  {
    var q, r, j := a + b, a + [node] + b, |a| + i;
    assert r[j + 1] == q[j] == b[i] && (i > 0 ==> r[j] == q[j - 1] == b[i - 1]);
    assert i + 1 < |b| ==> r[j + 2] == q[j + 1] == b[i + 1];
    assert q[|a|] == b[0] && r[|a|] == node;
    assert |a| > 0 ==> q[|a| - 1] == a[|a| - 1];
  }

  lemma EnteredThreaded(m: Snapshot, m': Snapshot, c: Ctx, node: Node, a: seq<Node>, b: seq<Node>)
    requires Entered(m, m', c, node, a, b) && Threaded(m, a + b) && NoDup(a + b)
    ensures Threaded(m', a + [node] + b)
  {
    var r := a + [node] + b;
    forall i | 0 <= i < |r| ensures ThreadedAt(m', r, i) {
      if i < |a| {
        EnteredBefore(m, m', c, node, a, b, i);
      } else if i > |a| {
        EnteredAfter(m, m', c, node, a, b, i - |a| - 1);
      } else {
        assert r[i] == node && (i > 0 ==> r[i - 1] == a[i - 1]) && (|b| > 0 ==> r[i + 1] == b[0]);
      }
    }
  }

  /** node has been threaded between a and b; its own cell is not among those of m. */
  ghost predicate Rethreaded(m: Snapshot, m': Snapshot, node: Node, a: seq<Node>, b: seq<Node>) {
    && m'.Keys == m.Keys && (forall x :: x in m ==> SameLinks(m[x], m'[x]))
    && (forall x :: x in m ==> m'[x].N == if x == Last(a) then node else m[x].N)
    && (forall x :: x in m ==> m'[x].P == if x == Head(b) then node else m[x].P)
  }

  /** node has been threaded between a and b and hung into the hole of c. */
  ghost predicate Attached(m: Snapshot, m': Snapshot, c: Ctx, node: Node, a: seq<Node>, b: seq<Node>) {
    && m'.Keys == m.Keys && node !in m
    && (forall x :: x in m ==> m'[x].U == m[x].U && m'[x].C == m[x].C)
    && (forall x :: x in m ==> m'[x].L == if c.Left? && x == c.n then node else m[x].L)
    && (forall x :: x in m ==> m'[x].R == if c.Right? && x == c.n then node else m[x].R)
    && (forall x :: x in m ==> m'[x].N == if x == Last(a) then node else m[x].N)
    && (forall x :: x in m ==> m'[x].P == if x == Head(b) then node else m[x].P)
  }

  lemma AttachedNow(m: Snapshot, m1: Snapshot, m2: Snapshot, c: Ctx, node: Node, a: seq<Node>, b: seq<Node>, parent: Node)
    requires Rethreaded(m, m1, node, a, b) && node !in m && !c.Hole? && c.n == parent && parent in m1
    requires m2 == m1[parent := if c.Left? then m1[parent].(L := node) else m1[parent].(R := node)]
    ensures Attached(m, m2, c, node, a, b)
  {
  }

  lemma LinkedFrame(m: Snapshot, m': Snapshot, c: Ctx, t: Shape)
    requires Linked(m, c, t) && m'.Keys == m.Keys && forall x :: x in m ==> SameLinks(m[x], m'[x])
    ensures Linked(m', c, t)
  {
    FitsFrame(m, m', t, Parent(c));
    FitsCFrame(m, m', c, Top(t));
  }

  lemma RethreadedLinks(m: Snapshot, m': Snapshot, node: Node, a: seq<Node>, b: seq<Node>)
    requires Rethreaded(m, m', node, a, b)
    ensures m'.Keys == m.Keys && forall x :: x in m ==> SameLinks(m[x], m'[x])
  {
  }

  lemma DistinctTop(m: Snapshot, t: Shape)
    requires Linked(m, Hole, t)
    ensures Distinct(t)
  {
  }

  lemma GoRight(c: Ctx, t: Shape)
    requires t.T?
    ensures Up(Right(c, t.n, t.red, t.l), t.r) == t && Before(Right(c, t.n, t.red, t.l)) == Before(c) + InOrder(t.l) + [t.n]
  {
  }

  /** The nodes up to x, and those after it. */
  lemma AfterNode(m: Snapshot, c: Ctx, t: Shape, x: Node) returns (a: seq<Node>, b: seq<Node>)
    requires t.T? && t.n == x && Threaded(m, InOrder(Plug(c, t))) && Distinct(Plug(c, t))
    ensures a == Before(c) + InOrder(t.l) + [x] && b == InOrder(t.r) + After(c)
    ensures InOrder(Plug(c, t)) == a + b && NoDup(a + b)
    ensures Last(a) == x && x in m && m[x].N == Head(b) && (b != [] ==> b[0] in m && b[0] != x)
  {
    PlugInOrder(c, t);
    InOrderOnce(Plug(c, t));
    a, b := Before(c) + InOrder(t.l) + [x], InOrder(t.r) + After(c);
    hide InOrder, Plug, Distinct;
    assert InOrder(Plug(c, t)) == a + b;
    assert ThreadedAt(m, a + b, |a| - 1);
    if b != [] {
      assert ThreadedAt(m, a + b, |a|);
      assert (a + b)[|a| - 1] == x && (a + b)[|a|] == b[0];
    }
  }

  /** The order around an empty place. */
  lemma HoleSplits(c: Ctx, a: seq<Node>, b: seq<Node>)
    requires InOrder(Plug(c, Nil)) == a + b && Before(c) == a
    ensures After(c) == b
  {
    PlugInOrder(c, Nil);
    assert a + After(c) == a + b;
    assert (a + After(c))[|a|..] == After(c) && (a + b)[|a|..] == b;
  }

  /** q' is q with node put in right after `after`, or at the front. */
  ghost predicate InsertedAfter(q: seq<Node>, q': seq<Node>, after: Node?, node: Node) {
    exists i :: 0 <= i <= |q| && q' == q[..i] + [node] + q[i..] && (if after == null then i == 0 else i > 0 && q[i - 1] == after)
  }

  lemma InsertedNow(t: Shape, t': Shape, c: Ctx, after: Node?, node: Node)
    requires Plug(c, Nil) == t && InOrder(t') == InOrder(Plug(c, T(Nil, node, true, Nil))) && Last(Before(c)) == after
    ensures InsertedAfter(InOrder(t), InOrder(t'), after, node)
  {
    PlugInOrder(c, Nil);
    PlugInOrder(c, T(Nil, node, true, Nil));
    var a, b := Before(c), After(c);
    assert InOrder(T(Nil, node, true, Nil)) == [node];
    hide Plug, Before, After;
    assert InOrder(t) == a + b && InOrder(t') == a + [node] + b;
    hide InOrder;
    assert (a + b)[..|a|] == a && (a + b)[|a|..] == b;
  }

  lemma ThreadsKept(m: Snapshot, m': Snapshot, q: seq<Node>)
    requires SameThreads(m, m') && Threaded(m, q)
    ensures Threaded(m', q)
  {
    forall i: nat | i < |q| ensures ThreadedAt(m', q, i) {
      assert ThreadedAt(m, q, i);
    }
  }

  lemma LeafTop(node: Node)
    ensures Top(T(Nil, node, true, Nil)) == node && T(Nil, node, true, Nil).T?
  {
  }

  lemma TopHole(t: Shape)
    ensures Root(Hole, Top(t)) == Top(t) && NodesC(Hole) == {} && (Top(t) == null <==> t.Nil?) && Before(Hole) == [] && After(Hole) == []
    ensures (t.Nil? ==> Nodes(t) == {}) && Plug(Hole, t) == t && InOrder(Nil) == [] && Last([]) == null && Head([]) == null && Parent(Hole) == null
  {
  }

  lemma EmptyAttached(m: Snapshot, node: Node)
    requires node !in m && m.Keys == {}
    ensures Attached(m, m, Hole, node, [], [])
  {
  }

  /** The leftmost place comes before all nodes. */
  lemma FirstNode(c: Ctx, t: Shape)
    requires c.Left? && t == T(Nil, c.n, c.red, c.sib) && Before(c.up) == []
    ensures Before(c) == [] && Head(After(c)) == c.n && Plug(c, Nil) == Plug(c.up, t)
  {
  }

  lemma AttachedFirst(m: Snapshot, m': Snapshot, c: Ctx, node: Node, b: seq<Node>)
    requires c.Left? && c.n in m && node !in m && Head(b) == c.n && m' == m[c.n := m[c.n].(P := node, L := node)]
    ensures Attached(m, m', c, node, [], b)
  {
  }

  /** The root after node has been put into the hole. */
  lemma HoleRoot(m: Snapshot, c: Ctx, t: Shape, node: Node)
    requires Plug(c, Nil) == t
    ensures Root(c, node) == if c.Hole? then node else Top(t)
    ensures Top(T(Nil, node, true, Nil)) == node
  {
    PlugLinked(m, c, Nil);
  }

  lemma Filled(m: Snapshot, m': Snapshot, c: Ctx, node: Node, a: seq<Node>, b: seq<Node>, t: Shape, nodes: set<Node>)
    requires Entered(m, m', c, node, a, b) && Linked(m, Hole, t) && Plug(c, Nil) == t && m.Keys == nodes == NodesC(Hole) + Nodes(t)
    requires Threaded(m, InOrder(t)) && Balanced(t) && !IsRed(t) && a == Before(c) && b == After(c)
    ensures Linked(m', c, T(Nil, node, true, Nil)) && NodesC(c) + Nodes(T(Nil, node, true, Nil)) == nodes + {node}
    ensures Inserting(c, T(Nil, node, true, Nil)) && Threaded(m', a + [node] + b)
    ensures InOrder(Plug(c, T(Nil, node, true, Nil))) == a + [node] + b
  {
    hide *;
    PlugLinked(m, c, Nil);
    PlugNodes(c, Nil);
    EmptyNodes();
    EnteredLinked(m, m', c, node, a, b);
    PlugInOrder(c, Nil);
    DistinctTop(m, t);
    InOrderOnce(t);
    TopHole(t);
    assert a + [] + b == a + b;
    EnteredThreaded(m, m', c, node, a, b);
    PlugBalanced(c, Nil);
    LeafInserting(c, node);
    PlugInOrder(c, T(Nil, node, true, Nil));
  }

  lemma EmptyNodes()
    ensures Nodes(Nil) == {} && NodesC(Hole) == {} && Height(Nil) == 0 && !IsRed(Nil)
  {
  }

  lemma LeafInserting(c: Ctx, node: Node)
    requires BalancedC(c, 0, false) && (c.Hole? || BlackTop(c))
    ensures Inserting(c, T(Nil, node, true, Nil)) && InOrder(T(Nil, node, true, Nil)) == [node]
  {
  }

  lemma PaintInOrder(t: Shape, red: bool)
    requires t.T?
    ensures InOrder(t.(red := red)) == InOrder(t)
  {
  }

  // ---------- removal: the shapes ----------

  /** The ways down through t meet one black node too few. */
  ghost predicate Lacking(c: Ctx, t: Shape) {
    Balanced(t) && !IsRed(t) && BalancedC(c, Height(t) + 1, false) && (c.Hole? || BlackTop(c))
  }

  /** With t's top painted black, the whole is balanced and black at the top. */
  ghost predicate Finishing(c: Ctx, t: Shape) {
    var t' := if t.T? then t.(red := false) else t;
    Balanced(Plug(c, t')) && !IsRed(Plug(c, t'))
  }

  /** Next to a lack there is a sibling, black or with black children; and its children, if it is black, may be red. */
  lemma HasSibling(c: Ctx, t: Shape)
    requires Lacking(c, t) && !c.Hole?
    ensures c.sib.T? && (c.sib.red ==> !c.red && c.sib.l.T? && c.sib.r.T? && !c.sib.l.red && !c.sib.r.red)
  {
  }

  lemma LackingEnds(c: Ctx, t: Shape)
    requires Lacking(c, t) && c.Hole?
    ensures Finishing(c, t)
  {
  }

  /** A black sibling with black children turns red, and the lack moves up. */
  lemma Starved(c: Ctx, t: Shape)
    requires Lacking(c, t) && !c.Hole? && c.sib.T? && !c.sib.red && !IsRed(c.sib.l) && !IsRed(c.sib.r)
    ensures c.red ==> Finishing(c.up, Up(WithSib(c, c.sib.(red := true)), t))
    ensures !c.red ==> Lacking(c.up, Up(WithSib(c, c.sib.(red := true)), t))
    ensures Up(WithSib(c, c.sib.(red := true)), t).T? && Up(WithSib(c, c.sib.(red := true)), t).red == c.red
    ensures Up(WithSib(c, c.sib.(red := true)), t).n == c.n
  {
    hide Plug;
    var sib, t' := c.sib.(red := true), Up(WithSib(c, c.sib.(red := true)), t);
    assert Balanced(sib) && Height(sib) == Height(t);
    assert Balanced(t'.(red := false)) && Height(t'.(red := false)) == Height(t) + 1;
    if c.red {
      assert !c.up.Hole? && BlackTop(c.up);
      PlugBalanced(c.up, t'.(red := false));
      CalmerC(c.up, Height(t) + 1);
    } else {
      assert t'.(red := false) == t';
    }
  }

  /** What suits a red tree suits a black one. */
  lemma CalmerC(c: Ctx, h: nat)
    ensures BalancedC(c, h, true) ==> BalancedC(c, h, false)
  {
  }

  /** A red sibling rises, so that the sibling becomes black. */
  lemma SunkLeft(c: Ctx, t: Shape)
    requires Lacking(c, t) && c.Left? && c.sib.T? && c.sib.red
    ensures TurnLeft(Up(PaintC(WithSib(c, c.sib.(red := false)), true), t)) == Up(Left(c.up, c.sib.n, false, c.sib.r), T(t, c.n, true, c.sib.l))
    ensures Up(Left(Left(c.up, c.sib.n, false, c.sib.r), c.n, true, c.sib.l), t) == T(t, c.n, true, c.sib.l)
    ensures Lacking(Left(Left(c.up, c.sib.n, false, c.sib.r), c.n, true, c.sib.l), t)
  {
  }

  lemma SunkRight(c: Ctx, t: Shape)
    requires Lacking(c, t) && c.Right? && c.sib.T? && c.sib.red
    ensures TurnRight(Up(PaintC(WithSib(c, c.sib.(red := false)), true), t)) == Up(Right(c.up, c.sib.n, false, c.sib.l), T(c.sib.r, c.n, true, t))
    ensures Up(Right(Right(c.up, c.sib.n, false, c.sib.l), c.n, true, c.sib.r), t) == T(c.sib.r, c.n, true, t)
    ensures Lacking(Right(Right(c.up, c.sib.n, false, c.sib.l), c.n, true, c.sib.r), t)
  {
  }

  /** The red nephew comes to the outside. */
  lemma TurnedOut(c: Ctx, t: Shape)
    requires Lacking(c, t) && !c.Hole? && c.sib.T? && !c.sib.red
    ensures c.Left? && IsRed(c.sib.l) && !IsRed(c.sib.r) ==>
        var s := TurnRight(c.sib.(red := true, l := c.sib.l.(red := false)));
        Lacking(WithSib(c, s), t) && s.T? && !s.red && IsRed(s.r) && InOrder(s) == InOrder(c.sib)
    ensures c.Right? && IsRed(c.sib.r) && !IsRed(c.sib.l) ==>
        var s := TurnLeft(c.sib.(red := true, r := c.sib.r.(red := false)));
        Lacking(WithSib(c, s), t) && s.T? && !s.red && IsRed(s.l) && InOrder(s) == InOrder(c.sib)
  {
    var b := c.sib;
    assert Balanced(b) && Balanced(b.l) && Balanced(b.r);
    if c.Left? && IsRed(b.l) && !IsRed(b.r) {
      var x := T(b.l.r, b.n, true, b.r);
      assert Balanced(x) && Height(x) == Height(b.l);
      var s := T(b.l.l, b.l.n, false, x);
      assert Balanced(s) && Height(s) == Height(b);
    }
    if c.Right? && IsRed(b.r) && !IsRed(b.l) {
      var x := T(b.l, b.n, true, b.r.l);
      assert Balanced(x) && Height(x) == Height(b.r);
      var s := T(x, b.r.n, false, b.r.r);
      assert Balanced(s) && Height(s) == Height(b);
    }
  }

  /** The sibling takes the parent's place and colour, and the lack is made up. */
  lemma FedLeft(c: Ctx, t: Shape)
    requires Lacking(c, t) && c.Left? && c.sib.T? && !c.sib.red && IsRed(c.sib.r)
    ensures var t' := TurnLeft(Up(PaintC(WithSib(c, c.sib.(red := c.red, r := c.sib.r.(red := false))), false), t));
        Balanced(Plug(c.up, t')) && !IsRed(Plug(c.up, t'))
  {
    var t' := T(T(t, c.n, false, c.sib.l), c.sib.n, c.red, c.sib.r.(red := false));
    assert Balanced(c.sib) && Balanced(c.sib.l) && Balanced(c.sib.r);
    assert Balanced(t'.l) && Height(t'.l) == Height(t) + 1;
    assert Balanced(t'.r) && Height(t'.r) == Height(t) + 1;
    assert BalancedC(c.up, Height(t'), c.red);
    PlugBalanced(c.up, t');
  }

  lemma FedRight(c: Ctx, t: Shape)
    requires Lacking(c, t) && c.Right? && c.sib.T? && !c.sib.red && IsRed(c.sib.l)
    ensures var t' := TurnRight(Up(PaintC(WithSib(c, c.sib.(red := c.red, l := c.sib.l.(red := false))), false), t));
        Balanced(Plug(c.up, t')) && !IsRed(Plug(c.up, t'))
  {
    var t' := T(c.sib.l.(red := false), c.sib.n, c.red, T(c.sib.r, c.n, false, t));
    assert Balanced(c.sib) && Balanced(c.sib.l) && Balanced(c.sib.r);
    assert Balanced(t'.l) && Height(t'.l) == Height(t) + 1;
    assert Balanced(t'.r) && Height(t'.r) == Height(t) + 1;
    assert BalancedC(c.up, Height(t'), c.red);
    PlugBalanced(c.up, t');
  }

  lemma SibTwice(c: Ctx, c2: Ctx, s: Shape)
    requires !c.Hole? && !c2.Hole? && c2.up == c.up && c2.n == c.n && c2.red == c.red && (c2.Left? <==> c.Left?)
    ensures WithSib(c2, s) == WithSib(c, s)
  {
  }

  lemma SibInOrder(c: Ctx, t: Shape, s: Shape)
    requires !c.Hole? && InOrder(s) == InOrder(c.sib)
    ensures InOrder(Plug(WithSib(c, s), t)) == InOrder(Plug(c, t))
  {
    PlugInOrder(c, t);
    PlugInOrder(WithSib(c, s), t);
  }

  lemma WholeEnds(t: Shape)
    requires Balanced(t) && !IsRed(t)
    ensures Finishing(Hole, t) && Plug(Hole, t) == t
  {
    var t' := if t.T? then t.(red := false) else t;
    assert t' == t && Plug(Hole, t') == t';
  }

  lemma SizeUp(c: Ctx)
    ensures !c.Hole? ==> Size(c.up) < Size(c)
  {
  }

  lemma ThreadsMaybe(m: Snapshot, m': Snapshot, m'': Snapshot)
    requires SameThreads(m, m') && (m'' == m' || SameThreads(m', m''))
    ensures SameThreads(m, m'')
  {
  }

  /** s on top of base: the holes of base are filled by s. */
  function Graft(s: Ctx, base: Ctx): Ctx {
    match s
    case Hole => base
    case Left(up, n, red, sib) => Left(Graft(up, base), n, red, sib)
    case Right(up, n, red, sib) => Right(Graft(up, base), n, red, sib)
  }

  ghost predicate AllLeft(s: Ctx) {
    !s.Hole? ==> s.Left? && AllLeft(s.up)
  }

  lemma NoSpine(c: Ctx, t: Shape)
    ensures Graft(Hole, c) == c && Plug(Hole, t) == t && AllLeft(Hole)
  {
  }

  lemma Longer(s: Ctx, c: Ctx, t: Shape)
    requires t.T? && AllLeft(s)
    ensures Graft(Left(s, t.n, t.red, t.r), c) == Left(Graft(s, c), t.n, t.red, t.r) && AllLeft(Left(s, t.n, t.red, t.r))
    ensures Plug(Left(s, t.n, t.red, t.r), t.l) == Plug(s, t)
  {
  }

  lemma {:induction false} GraftPlug(s: Ctx, base: Ctx, t: Shape)
    ensures Plug(Graft(s, base), t) == Plug(base, Plug(s, t))
    decreases s
  {
    match s
    case Hole =>
    case Left(up, n, red, sib) => GraftPlug(up, base, T(t, n, red, sib));
    case Right(up, n, red, sib) => GraftPlug(up, base, T(sib, n, red, t));
  }

  /** The node below which the spine starts does not matter to the balance, nor to what comes after. */
  lemma {:induction false} GraftSame(s: Ctx, base: Ctx, base': Ctx, h: nat, red: bool)
    requires base.Right? && base'.Right? && base'.up == base.up && base'.red == base.red && base'.sib == base.sib && AllLeft(s)
    ensures BalancedC(Graft(s, base'), h, red) == BalancedC(Graft(s, base), h, red)
    ensures BlackTop(Graft(s, base')) == BlackTop(Graft(s, base)) && !Graft(s, base).Hole? && !Graft(s, base').Hole?
    ensures After(Graft(s, base')) == After(Graft(s, base)) && Before(Graft(s, base)) == Before(base) && Before(Graft(s, base')) == Before(base')
    decreases s
  {
    if !s.Hole? {
      GraftSame(s.up, base, base', h + (if s.red then 0 else 1), s.red);
    }
  }

  // ---------- removal: the links ----------

  /** x has been taken out of the thread between a and b. */
  ghost predicate Unthreaded(m: Snapshot, m': Snapshot, x: Node, a: seq<Node>, b: seq<Node>) {
    && m'.Keys == m.Keys && (forall z :: z in m ==> SameLinks(m[z], m'[z]))
    && (forall z :: z in m && z != x ==> m'[z].N == if z == Last(a) then Head(b) else m[z].N)
    && (forall z :: z in m && z != x ==> m'[z].P == if z == Head(b) then Last(a) else m[z].P)
  }

  function WithPrevious(m: Snapshot, x: Node?, previous: Node?): Snapshot {
    if x == null || x !in m then m else m[x := m[x].(P := previous)]
  }

  function WithNext(m: Snapshot, x: Node?, next: Node?): Snapshot {
    if x == null || x !in m then m else m[x := m[x].(N := next)]
  }

  lemma ThreadsAt(m: Snapshot, x: Node)
    requires x in m && m[x].N != x
    ensures x in WithPrevious(m, m[x].N, m[x].P) && WithPrevious(m, m[x].N, m[x].P)[x] == m[x]
    ensures WithPrevious(m, m[x].N, m[x].P).Keys == m.Keys
  {
  }

  lemma UnthreadedMade(m: Snapshot, m2: Snapshot, m': Snapshot, x: Node, a: seq<Node>, b: seq<Node>)
    requires x in m && m[x].P == Last(a) && m[x].N == Head(b) && m[x].P != x && m[x].N != x
    requires (m[x].P != null ==> m[x].P in m) && (m[x].N != null ==> m[x].N in m)
    requires m2 == WithNext(WithPrevious(m, m[x].N, m[x].P), m[x].P, m[x].N) && x in m2 && m' == m2[x := m2[x].(N := null, P := null)]
    ensures Unthreaded(m, m', x, a, b)
  {
    hide Last, Head;
  }

  /** x hangs in the hole of c. */
  ghost predicate Hangs(m: Snapshot, c: Ctx, x: Node) {
    && x in m && m[x].U == Parent(c)
    && (!c.Hole? ==> c.n in m && c.n != x && (c.Left? <==> m[c.n].L == x))
  }

  /** The cells after next, x's only child if there is one, has taken x's place. */
  ghost predicate UnlinkedOne(m: Snapshot, m': Snapshot, c: Ctx, x: Node, next: Node?) {
    && m'.Keys == m.Keys - {x}
    && (forall z :: z in m' ==> m'[z].C == m[z].C && m'[z].P == m[z].P && m'[z].N == m[z].N)
    && (forall z :: z in m' ==> m'[z].U == if z == next then Parent(c) else m[z].U)
    && (forall z :: z in m' ==> m'[z].L == if c.Left? && z == c.n then next else m[z].L)
    && (forall z :: z in m' ==> m'[z].R == if c.Right? && z == c.n then next else m[z].R)
  }

  function WithChild(m: Snapshot, c: Ctx, next: Node?): Snapshot {
    if c.Hole? || c.n !in m then m else m[c.n := if c.Left? then m[c.n].(L := next) else m[c.n].(R := next)]
  }

  function WithUp(m: Snapshot, x: Node?, up: Node?): Snapshot {
    if x == null || x !in m then m else m[x := m[x].(U := up)]
  }

  function Lifted(m: Snapshot, x: Node, r: Node, y: Node): Snapshot
    requires x in m && r in m && y in m && m[y].U != null && m[y].U in m
  {
    var p: Node := m[y].U;
    var m1 := m[y := m[y].(U := m[x].U, R := r)];
    var m2 := m1[p := m1[p].(L := m[y].R)];
    m2[r := m2[r].(U := y)]
  }

  lemma WithUpAt(m: Snapshot, y: Node, up: Node?)
    requires y in m
    ensures WithUp(m, y, up) == m[y := m[y].(U := up)] && y in WithUp(m, y, up) && WithUp(m, y, up)[y].R == m[y].R && WithUp(m, y, up).Keys == m.Keys
  {
  }

  lemma LiftedMade(m: Snapshot, m1: Snapshot, m2: Snapshot, m': Snapshot, x: Node, r: Node, y: Node, p: Node)
    requires x in m && r in m && y in m && p in m && m[y].U == p && p != y && r != y
    requires m1 == WithUp(m, y, m[x].U) && p in m1 && m2 == m1[p := m1[p].(L := m[y].R)] && y in m2
    requires m' == WithUp(m2[y := m2[y].(R := r)], r, y)
    ensures m' == Lifted(m, x, r, y)
  {
  }

  lemma HangsIn(m: Snapshot, c: Ctx, x: Node)
    requires Hangs(m, c, x)
    ensures x in m && m[x].U == Parent(c) && (!c.Hole? ==> c.n in m && c.n != x)
  {
  }

  lemma SplicesIn(m: Snapshot, c: Ctx, x: Node, l: Node, r: Node, y: Node, p: Node, q: Node?)
    requires Splices(m, c, x, l, r, y, p, q)
    ensures l in m && r in m && y in m && p in m && (q != null ==> q in m) && l != y && x != y
  {
  }

  lemma WithChildC(m: Snapshot, c: Ctx, next: Node?, x: Node)
    requires x in m
    ensures WithChild(m, c, next).Keys == m.Keys && WithChild(m, c, next)[x].C == m[x].C
  {
  }

  lemma UnlinkedNow(m: Snapshot, c: Ctx, x: Node, next: Node?)
    requires Hangs(m, c, x) && (next != null ==> next in m && next != x && next != Parent(c))
    ensures UnlinkedOne(m, WithUp(WithChild(m, c, next), next, Parent(c)) - {x}, c, x, next)
  {
  }

  /** The state between the steps, for all cells but those of x. */
  ghost predicate Midway(m: Snapshot, m': Snapshot, c: Ctx, x: Node, l: Node, r: Node, y: Node, p: Node, q: Node?, moved: bool) {
    MidwayUp(m, m', c, x, l, r, y, p, q, moved) && MidwayDown(m, m', c, x, l, r, y, p, q, moved)
  }

  ghost predicate MidwayUp(m: Snapshot, m': Snapshot, c: Ctx, x: Node, l: Node, r: Node, y: Node, p: Node, q: Node?, moved: bool) {
    && m'.Keys == m.Keys && x in m && y in m && m'[x].U == m[x].U
    && (forall z :: z in m' ==> m'[z].P == m[z].P && m'[z].N == m[z].N)
    && (forall z :: z in m' && z != x ==> m'[z].C == (if z == y then m[x].C else m[z].C))
    && (forall z :: z in m' && z != x ==>
          (m'[z].U == if z == y then (if moved then Parent(c) else m[y].U) else if z == l then y
                      else if moved && y != r && z == r then y else m[z].U))
  }

  ghost predicate MidwayDown(m: Snapshot, m': Snapshot, c: Ctx, x: Node, l: Node, r: Node, y: Node, p: Node, q: Node?, moved: bool) {
    && m'.Keys == m.Keys
    && (forall z :: z in m' && z != x ==>
          (m'[z].L == if z == y then l else if c.Left? && z == c.n then y else if moved && y != r && z == p then q else m[z].L))
    && (forall z :: z in m' && z != x ==>
          (m'[z].R == if z == y then (if moved && y != r then r else q) else if c.Right? && z == c.n then y else m[z].R))
  }

  lemma AfterAdopt(m: Snapshot, m1: Snapshot, m2: Snapshot, c: Ctx, x: Node, l: Node, r: Node, y: Node, p: Node, q: Node?)
    requires Hangs(m, c, x) && Splices(m, c, x, l, r, y, p, q) && m1 == WithChild(m, c, y) && m1.Keys == m.Keys
    requires m2 == m1[y := m1[y].(C := m1[x].C, L := l)][l := m1[l].(U := y)]
    ensures Midway(m, m2, c, x, l, r, y, p, q, false)
    ensures y in m2 && x in m2 && r in m2 && m2[y].U == m[y].U && m2[y].R == q && (y != r ==> m[y].U == p && p in m2 && p != y)
  {
    AfterAdoptUp(m, m1, m2, c, x, l, r, y, p, q);
    AfterAdoptDown(m, m1, m2, c, x, l, r, y, p, q);
    AdoptedAt(m, m1, m2, c, x, l, r, y, p, q);
    hide MidwayUp, MidwayDown, Splices, Hangs, WithChild;
  }

  lemma AfterAdoptUp(m: Snapshot, m1: Snapshot, m2: Snapshot, c: Ctx, x: Node, l: Node, r: Node, y: Node, p: Node, q: Node?)
    requires Hangs(m, c, x) && Splices(m, c, x, l, r, y, p, q) && m1 == WithChild(m, c, y) && m1.Keys == m.Keys
    requires m2 == m1[y := m1[y].(C := m1[x].C, L := l)][l := m1[l].(U := y)]
    ensures MidwayUp(m, m2, c, x, l, r, y, p, q, false)
  {
  }

  lemma AfterAdoptDown(m: Snapshot, m1: Snapshot, m2: Snapshot, c: Ctx, x: Node, l: Node, r: Node, y: Node, p: Node, q: Node?)
    requires Hangs(m, c, x) && Splices(m, c, x, l, r, y, p, q) && m1 == WithChild(m, c, y) && m1.Keys == m.Keys
    requires m2 == m1[y := m1[y].(C := m1[x].C, L := l)][l := m1[l].(U := y)]
    ensures MidwayDown(m, m2, c, x, l, r, y, p, q, false)
  {
  }

  lemma AdoptedAt(m: Snapshot, m1: Snapshot, m2: Snapshot, c: Ctx, x: Node, l: Node, r: Node, y: Node, p: Node, q: Node?)
    requires Hangs(m, c, x) && Splices(m, c, x, l, r, y, p, q) && m1 == WithChild(m, c, y) && m1.Keys == m.Keys
    requires m2 == m1[y := m1[y].(C := m1[x].C, L := l)][l := m1[l].(U := y)]
    ensures y in m2 && x in m2 && r in m2 && m2[y].U == m[y].U && m2[y].R == q && (y != r ==> m[y].U == p && p in m2 && p != y)
  {
  }

  lemma AfterLift(m: Snapshot, m2: Snapshot, m3: Snapshot, c: Ctx, x: Node, l: Node, r: Node, y: Node, p: Node, q: Node?)
    requires Hangs(m, c, x) && Splices(m, c, x, l, r, y, p, q) && Midway(m, m2, c, x, l, r, y, p, q, false) && y != r
    requires r in m2 && y in m2 && m2[y].U == p && p in m2 && m3 == Lifted(m2, x, r, y)
    ensures Midway(m, m3, c, x, l, r, y, p, q, true)
  {
    AfterLiftUp(m, m2, m3, c, x, l, r, y, p, q);
    AfterLiftDown(m, m2, m3, c, x, l, r, y, p, q);
    hide *;
    MidwayBoth(m, m3, c, x, l, r, y, p, q);
  }

  lemma MidwayBoth(m: Snapshot, m': Snapshot, c: Ctx, x: Node, l: Node, r: Node, y: Node, p: Node, q: Node?)
    requires MidwayUp(m, m', c, x, l, r, y, p, q, true) && MidwayDown(m, m', c, x, l, r, y, p, q, true)
    ensures Midway(m, m', c, x, l, r, y, p, q, true)
  {
    hide MidwayUp, MidwayDown;
  }

  lemma AfterLiftUp(m: Snapshot, m2: Snapshot, m3: Snapshot, c: Ctx, x: Node, l: Node, r: Node, y: Node, p: Node, q: Node?)
    requires Hangs(m, c, x) && Splices(m, c, x, l, r, y, p, q) && MidwayUp(m, m2, c, x, l, r, y, p, q, false) && y != r
    requires r in m2 && y in m2 && m2[y].U == p && p in m2 && m3 == Lifted(m2, x, r, y)
    ensures MidwayUp(m, m3, c, x, l, r, y, p, q, true)
  {
  }

  lemma AfterLiftDown(m: Snapshot, m2: Snapshot, m3: Snapshot, c: Ctx, x: Node, l: Node, r: Node, y: Node, p: Node, q: Node?)
    requires Hangs(m, c, x) && Splices(m, c, x, l, r, y, p, q) && MidwayDown(m, m2, c, x, l, r, y, p, q, false) && y != r
    requires r in m2 && y in m2 && m2[y].U == p && p in m2 && m3 == Lifted(m2, x, r, y)
    ensures MidwayDown(m, m3, c, x, l, r, y, p, q, true)
  {
  }

  lemma AfterMove(m: Snapshot, m2: Snapshot, m3: Snapshot, c: Ctx, x: Node, l: Node, r: Node, y: Node, p: Node, q: Node?)
    requires Hangs(m, c, x) && Splices(m, c, x, l, r, y, p, q) && Midway(m, m2, c, x, l, r, y, p, q, false) && y == r
    requires m3 == WithUp(m2, y, Parent(c))
    ensures Midway(m, m3, c, x, l, r, y, p, q, true) && y in m3 && m3[y].R == q
  {
  }

  lemma AfterAll(m: Snapshot, m3: Snapshot, m4: Snapshot, c: Ctx, x: Node, l: Node, r: Node, y: Node, p: Node, q: Node?)
    requires Hangs(m, c, x) && Splices(m, c, x, l, r, y, p, q) && Midway(m, m3, c, x, l, r, y, p, q, true)
    requires m4 == WithUp(m3, q, if y == r then y else p)
    ensures Spliced(m, m4 - {x}, c, x, l, r, y, p, q)
  {
  }

  /** What removing a node with two children finds: y comes right after x, p is its parent and q its right child. */
  ghost predicate Splices(m: Snapshot, c: Ctx, x: Node, l: Node, r: Node, y: Node, p: Node, q: Node?) {
    && l in m && r in m && y in m && p in m && l != x && l != y && l != r && l != p && r != x && y != x && y != p
    && m[y].R == q && (q != null ==> q in m && q != x && q != y && q != l && q != p && q != Parent(c) && q != r)
    && l != Parent(c) && r != Parent(c) && y != Parent(c) && p != Parent(c)
    && (y == r ==> p == x) && (y != r ==> p != x && m[y].U == p)
  }

  /** The cells after y has taken x's place and q y's. */
  ghost predicate Spliced(m: Snapshot, m': Snapshot, c: Ctx, x: Node, l: Node, r: Node, y: Node, p: Node, q: Node?) {
    && m'.Keys == m.Keys - {x} && x in m && y in m'
    && (forall z :: z in m' ==> m'[z].P == m[z].P && m'[z].N == m[z].N)
    && (forall z :: z in m' ==> m'[z].C == if z == y then m[x].C else m[z].C)
    && (forall z :: z in m' ==>
          (m'[z].L == if z == y then l else if c.Left? && z == c.n then y else if y != r && z == p then q else m[z].L))
    && (forall z :: z in m' ==>
          (m'[z].R == if z == y then (if y == r then q else r) else if c.Right? && z == c.n then y else m[z].R))
    && (forall z :: z in m' ==>
          (m'[z].U == if z == y then Parent(c) else if z == l then y else if z == q then (if y == r then y else p)
                      else if y != r && z == r then y else m[z].U))
  }

  lemma OneLinked(m: Snapshot, m': Snapshot, c: Ctx, t: Shape, t': Shape)
    requires Linked(m, c, t) && t.T? && ((t' == t.l && t.r.Nil?) || (t' == t.r && t.l.Nil?)) && UnlinkedOne(m, m', c, t.n, Top(t'))
    ensures Linked(m', c, t') && NodesC(c) + Nodes(t') == (NodesC(c) + Nodes(t)) - {t.n}
  {
    TopIn(t');
    ParentIn(c);
    assert Nodes(t) == Nodes(t') + {t.n};
    FitsNodes(m, t, Parent(c));
    FitsCNodes(m, c, t.n);
    MovedTo(m, m', t', t.n, Parent(c));
    if !c.Hole? {
      MovedAbove(m, m', c, t.n, Top(t'));
    }
  }

  lemma MovedTo(m: Snapshot, m': Snapshot, t: Shape, up: Node?, up': Node?)
    requires Fits(m, t, up) && Distinct(t) && KeptBelow(m, m', t)
    requires t.T? ==> t.n in m && t.n in m' && SameLinks(m[t.n].(U := up'), m'[t.n])
    ensures Fits(m', t, up')
  {
    if t.T? {
      FitsFrame(m, m', t.l, t.n);
      FitsFrame(m, m', t.r, t.n);
    }
  }

  /** The cells after y, from outside the tree, has replaced x between the subtrees l and r. */
  ghost predicate Replaced(m: Snapshot, m': Snapshot, c: Ctx, x: Node, y: Node, l: Node?, r: Node?) {
    && m'.Keys == m.Keys - {x} + {y} && x in m && y !in m
    && m'[y].L == l && m'[y].R == r && m'[y].U == Parent(c) && m'[y].C == m[x].C
    && (forall z :: z in m && z != x ==> m'[z].C == m[z].C)
    && (forall z :: z in m && z != x ==> m'[z].L == if c.Left? && z == c.n then y else m[z].L)
    && (forall z :: z in m && z != x ==> m'[z].R == if c.Right? && z == c.n then y else m[z].R)
    && (forall z :: z in m && z != x ==> m'[z].U == if z == l || z == r then y else m[z].U)
  }

  lemma ReplacedLinked(m: Snapshot, m': Snapshot, c: Ctx, l: Shape, x: Node, red: bool, r: Shape, y: Node)
    requires Linked(m, c, T(l, x, red, r)) && Replaced(m, m', c, x, y, Top(l), Top(r))
    ensures Linked(m', c, T(l, y, red, r)) && NodesC(c) + Nodes(T(l, y, red, r)) == (NodesC(c) + Nodes(T(l, x, red, r))) - {x} + {y}
  {
    var t, t' := T(l, x, red, r), T(l, y, red, r);
    TopIn(l);
    TopIn(r);
    ParentIn(c);
    FitsNodes(m, t, Parent(c));
    FitsCNodes(m, c, x);
    assert Nodes(t) == Nodes(l) + {x} + Nodes(r) && Nodes(t') == Nodes(l) + {y} + Nodes(r);
    MovedTo(m, m', l, x, y);
    MovedTo(m, m', r, x, y);
    if !c.Hole? {
      MovedAbove(m, m', c, x, y);
    }
  }

  lemma {:induction false} PlugApart(c: Ctx, t: Shape)
    ensures Distinct(Plug(c, t)) <==> Apart(c, t)
    decreases c
  {
    hide Distinct, DistinctC, Nodes, NodesC, Apart;
    if c.Hole? {
      HoleApart(t);
    } else {
      UpApart(c, t);
      PlugApart(c.up, Up(c, t));
    }
  }

  lemma HoleApart(t: Shape)
    ensures Plug(Hole, t) == t && (Distinct(t) <==> Apart(Hole, t))
  {
  }

  lemma {:induction false} RootIn(c: Ctx, hole: Node?)
    ensures !c.Hole? ==> Root(c, hole) != null && Root(c, hole) in NodesC(c)
    ensures c.Hole? ==> Root(c, hole) == hole
  {
    if !c.Hole? {
      RootIn(c.up, c.n);
    }
  }

  /** The cells after y, with at most one child q, has been taken out of the hole of c. */
  function Out(m: Snapshot, c: Ctx, y: Node, q: Node?): Snapshot {
    map z | z in m && z != y :: Cell(if c.Left? && z == c.n then q else m[z].L, if c.Right? && z == c.n then q else m[z].R,
                                     if z == q then Parent(c) else m[z].U, m[z].C, m[z].P, m[z].N)
  }

  lemma OutUnlinks(m: Snapshot, c: Ctx, y: Node, q: Node?)
    ensures UnlinkedOne(m, Out(m, c, y, q), c, y, q)
  {
  }

  /** The place of the next node y after x: the bottom of the left spine s of r. */
  ghost predicate NextIs(s: Ctx, r: Shape, y: Node, red: bool, q: Shape) {
    r.T? && AllLeft(s) && Plug(s, T(Nil, y, red, q)) == r
  }

  lemma TreeParts(l: Shape, x: Node, red: bool, r: Shape)
    ensures Nodes(T(l, x, red, r)) == Nodes(l) + {x} + Nodes(r) && Nodes(Nil) == {}
    ensures Distinct(T(l, x, red, r)) ==> x !in Nodes(l) && x !in Nodes(r) && Nodes(l) !! Nodes(r) && Distinct(l) && Distinct(r)
  {
  }

  lemma ApartParts(c: Ctx, t: Shape)
    requires Apart(c, t)
    ensures NodesC(c) !! Nodes(t) && Distinct(t)
  {
    hide Nodes, NodesC, Distinct, DistinctC;
  }

  lemma LinkedApart(m: Snapshot, c: Ctx, t: Shape)
    requires Linked(m, c, t)
    ensures Apart(c, t)
  {
    hide Apart, Fits, FitsC;
  }

  lemma NextPlace(m: Snapshot, c: Ctx, l: Shape, x: Node, red: bool, r: Shape, s: Ctx, y: Node, red': bool, q: Shape)
    requires Linked(m, c, T(l, x, red, r)) && NextIs(s, r, y, red', q)
    ensures Linked(m, Graft(s, Right(c, x, red, l)), T(Nil, y, red', q))
    ensures Nodes(r) == NodesC(s) + {y} + Nodes(q)
    ensures Apart(s, T(Nil, y, red', q)) && r.n == Root(s, y)
  {
    hide *;
    NextLinked(m, c, l, x, red, r, s, y, red', q);
    NextNodes(m, s, r, y, red', q);
    LinkedApart(m, c, T(l, x, red, r));
    RightDistinct(c, l, x, red, r);
    NextApart(s, r, y, red', q);
  }

  lemma RightDistinct(c: Ctx, l: Shape, x: Node, red: bool, r: Shape)
    requires Apart(c, T(l, x, red, r))
    ensures Distinct(r)
  {
    hide *;
    ApartParts(c, T(l, x, red, r));
    TreeParts(l, x, red, r);
  }

  lemma NextLinked(m: Snapshot, c: Ctx, l: Shape, x: Node, red: bool, r: Shape, s: Ctx, y: Node, red': bool, q: Shape)
    requires Linked(m, c, T(l, x, red, r)) && NextIs(s, r, y, red', q)
    ensures Linked(m, Graft(s, Right(c, x, red, l)), T(Nil, y, red', q))
  {
    hide *;
    var base, ty := Right(c, x, red, l), T(Nil, y, red', q);
    NextParts(s, r, y, red', q);
    RightUp(c, l, x, red, r);
    UpLinked(m, base, r);
    PlugLinked(m, base, r);
    PlugLinked(m, Graft(s, base), ty);
    GraftPlug(s, base, ty);
  }

  lemma NextNodes(m: Snapshot, s: Ctx, r: Shape, y: Node, red: bool, q: Shape)
    requires NextIs(s, r, y, red, q)
    ensures Nodes(r) == NodesC(s) + {y} + Nodes(q) && r.n == Root(s, y)
  {
    hide *;
    var ty := T(Nil, y, red, q);
    NextParts(s, r, y, red, q);
    PlugNodes(s, ty);
    PlugLinked(m, s, ty);
    TopShape(ty);
    TopShape(r);
    TreeParts(Nil, y, red, q);
    assert {} + {y} + Nodes(q) == {y} + Nodes(q);
  }

  lemma NextApart(s: Ctx, r: Shape, y: Node, red: bool, q: Shape)
    requires NextIs(s, r, y, red, q) && Distinct(r)
    ensures Apart(s, T(Nil, y, red, q))
  {
    hide *;
    NextParts(s, r, y, red, q);
    PlugApart(s, T(Nil, y, red, q));
  }

  lemma NextParts(s: Ctx, r: Shape, y: Node, red: bool, q: Shape)
    requires NextIs(s, r, y, red, q)
    ensures r.T? && AllLeft(s) && Plug(s, T(Nil, y, red, q)) == r
  {
    hide Plug, AllLeft;
  }

  lemma RightUp(c: Ctx, l: Shape, x: Node, red: bool, r: Shape)
    ensures Up(Right(c, x, red, l), r) == T(l, x, red, r)
  {
  }

  lemma SpliceNodes(m: Snapshot, c: Ctx, l: Shape, x: Node, red: bool, r: Shape, s: Ctx, y: Node, red': bool, q: Shape)
    requires Linked(m, c, T(l, x, red, r)) && NextIs(s, r, y, red', q) && l.T?
    ensures var p := if s.Hole? then x else s.n;
        Splices(m, c, x, l.n, r.n, y, p, Top(q)) && Parent(Graft(s, Right(c, x, red, l))) == p && (s.Hole? <==> y == r.n)
    ensures Hangs(m, c, x)
  {
    var t, p, ty := T(l, x, red, r), if s.Hole? then x else s.n, T(Nil, y, red', q);
    NextPlace(m, c, l, x, red, r, s, y, red', q);
    RootIn(s, y);
    ParentIn(s);
    TopIn(q);
    TopIn(l);
    TopIn(r);
    ParentIn(c);
    LinkedIn(m, c, t);
    NextCells(m, Graft(s, Right(c, x, red, l)), y, red', q);
    HangsNow(m, c, t);
    assert Nodes(t) == Nodes(l) + {x} + Nodes(r);
    SpliceApart(c, l, x, red, r, s, y, red', q);
  }

  lemma NextCells(m: Snapshot, c: Ctx, y: Node, red: bool, q: Shape)
    requires Linked(m, c, T(Nil, y, red, q))
    ensures y in m && m[y].R == Top(q) && m[y].U == Parent(c) && m[y].L == null && m[y].C == red
  {
  }

  lemma LinkedIn(m: Snapshot, c: Ctx, t: Shape)
    requires Linked(m, c, t)
    ensures NodesC(c) + Nodes(t) <= m.Keys && NodesC(c) !! Nodes(t)
  {
    FitsNodes(m, t, Parent(c));
    FitsCNodes(m, c, Top(t));
  }

  lemma HangsNow(m: Snapshot, c: Ctx, t: Shape)
    requires Linked(m, c, t) && t.T?
    ensures Hangs(m, c, t.n)
  {
    if !c.Hole? {
      TurnsContext(m, c, t);
      TopIn(t);
    }
  }

  lemma SpliceApart(c: Ctx, l: Shape, x: Node, red: bool, r: Shape, s: Ctx, y: Node, red': bool, q: Shape)
    requires Apart(c, T(l, x, red, r)) && Apart(s, T(Nil, y, red', q)) && Nodes(r) == NodesC(s) + {y} + Nodes(q)
    ensures x !in Nodes(l) && x !in Nodes(r) && Nodes(l) !! Nodes(r) && y !in NodesC(s) && y !in Nodes(q) && NodesC(s) !! Nodes(q)
    ensures NodesC(c) !! Nodes(l) && NodesC(c) !! Nodes(r) && x !in NodesC(c)
  {
    hide *;
    OneApart(c, l, x, red, r);
    OneApart(s, Nil, y, red', q);
  }

  lemma OneApart(c: Ctx, l: Shape, x: Node, red: bool, r: Shape)
    requires Apart(c, T(l, x, red, r))
    ensures x !in Nodes(l) && x !in Nodes(r) && Nodes(l) !! Nodes(r)
    ensures NodesC(c) !! Nodes(l) && NodesC(c) !! Nodes(r) && x !in NodesC(c)
  {
    hide *;
    ApartParts(c, T(l, x, red, r));
    TreeParts(l, x, red, r);
  }

  /** Splicing is taking y out and then putting it in x's stead. */
  lemma SplicedReplaces(m: Snapshot, m1: Snapshot, m': Snapshot, c: Ctx, x: Node, l: Node, r: Node, y: Node, p: Node, q: Node?, cy: Ctx)
    requires Splices(m, c, x, l, r, y, p, q) && Hangs(m, c, x) && UnlinkedOne(m, m1, cy, y, q) && Spliced(m, m', c, x, l, r, y, p, q)
    requires !cy.Hole? && cy.n == p && (cy.Left? <==> y != r)
    ensures Replaced(m1, m', c, x, y, l, if y == r then q else r)
  {
    SplicedUp(m, m1, m', c, x, l, r, y, p, q, cy);
    SplicedDown(m, m1, m', c, x, l, r, y, p, q, cy);
    hide Spliced, UnlinkedOne;
  }

  lemma SplicedUp(m: Snapshot, m1: Snapshot, m': Snapshot, c: Ctx, x: Node, l: Node, r: Node, y: Node, p: Node, q: Node?, cy: Ctx)
    requires Splices(m, c, x, l, r, y, p, q) && Hangs(m, c, x) && UnlinkedOne(m, m1, cy, y, q) && Spliced(m, m', c, x, l, r, y, p, q)
    requires !cy.Hole? && cy.n == p
    ensures m'.Keys == m1.Keys - {x} + {y} && x in m1 && y !in m1 && m'[y].U == Parent(c) && m'[y].C == m1[x].C
    ensures forall z :: z in m1 && z != x ==> m'[z].C == m1[z].C
    ensures forall z :: z in m1 && z != x ==> m'[z].U == if z == l || z == (if y == r then q else r) then y else m1[z].U
  {
  }

  lemma SplicedDown(m: Snapshot, m1: Snapshot, m': Snapshot, c: Ctx, x: Node, l: Node, r: Node, y: Node, p: Node, q: Node?, cy: Ctx)
    requires Splices(m, c, x, l, r, y, p, q) && Hangs(m, c, x) && UnlinkedOne(m, m1, cy, y, q) && Spliced(m, m', c, x, l, r, y, p, q)
    requires !cy.Hole? && cy.n == p && (cy.Left? <==> y != r)
    ensures m'.Keys == m1.Keys - {x} + {y} && m'[y].L == l && m'[y].R == if y == r then q else r
    ensures forall z :: z in m1 && z != x ==> m'[z].L == if c.Left? && z == c.n then y else m1[z].L
    ensures forall z :: z in m1 && z != x ==> m'[z].R == if c.Right? && z == c.n then y else m1[z].R
  {
  }

  /** What is left of r when y has been taken out. */
  lemma SpineTop(s: Ctx, r: Shape, y: Node, red: bool, q: Shape)
    requires NextIs(s, r, y, red, q)
    ensures Top(Plug(s, q)) == if s.Hole? then Top(q) else r.n
  {
    SpineRoot(s, q);
    SpineRoot(s, T(Nil, y, red, q));
    RootSame(s, Top(q), y);
  }

  lemma {:induction false} SpineRoot(s: Ctx, t: Shape)
    ensures Top(Plug(s, t)) == Root(s, Top(t))
    decreases s
  {
    if !s.Hole? {
      SpineRoot(s.up, Up(s, t));
    }
  }

  lemma RootSame(s: Ctx, x: Node?, y: Node?)
    ensures Root(s, x) == if s.Hole? then x else Root(s, y)
  {
  }

  lemma TwoLinked(m: Snapshot, m': Snapshot, c: Ctx, l: Shape, x: Node, red: bool, r: Shape, s: Ctx, y: Node, red': bool, q: Shape, p: Node)
    requires Linked(m, c, T(l, x, red, r)) && l.T? && NextIs(s, r, y, red', q) && p == (if s.Hole? then x else s.n)
    requires Spliced(m, m', c, x, l.n, r.n, y, p, Top(q)) && m.Keys == NodesC(c) + Nodes(T(l, x, red, r))
    ensures Linked(m', Graft(s, Right(c, y, red, l)), q)
    ensures NodesC(Graft(s, Right(c, y, red, l))) + Nodes(q) == m.Keys - {x}
  {
    hide *;
    var cy, c1 := Graft(s, Right(c, x, red, l)), Graft(s, Right(c, y, red, l));
    NextParts(s, r, y, red', q);
    SpineKind(s, Right(c, x, red, l));
    ParentIs(cy);
    NextPlace(m, c, l, x, red, r, s, y, red', q);
    SpliceNodes(m, c, l, x, red, r, s, y, red', q);
    OutUnlinks(m, cy, y, Top(q));
    var m1 := Out(m, cy, y, Top(q));
    LeafShape(y, red', q);
    OneLinked(m, m1, cy, T(Nil, y, red', q), q);
    Regrafted(m1, c, l, x, red, s, q);
    SpineTop(s, r, y, red', q);
    SplicedReplaces(m, m1, m', c, x, l.n, r.n, y, p, Top(q), cy);
    TopOf(l);
    TopOf(r);
    ReplacedLinked(m1, m', c, l, x, red, Plug(s, q), y);
    Regrafted(m', c, l, y, red, s, q);
    RegraftedNodes(c, l, x, red, s, T(Nil, y, red', q));
    RegraftedNodes(c, l, x, red, s, q);
    RegraftedNodes(c, l, y, red, s, q);
    LinkedApart(m, c, T(l, x, red, r));
    NextIn(c, l, x, red, r, s, y, red', q);
  }

  lemma SpineKind(s: Ctx, base: Ctx)
    requires AllLeft(s)
    ensures s.Hole? || s.Left?
    ensures base.Right? ==> !Graft(s, base).Hole? && (Graft(s, base).Left? <==> !s.Hole?)
  {
  }

  lemma LeafShape(y: Node, red: bool, q: Shape)
    ensures var t := T(Nil, y, red, q); t.T? && q == t.r && t.l.Nil? && t.n == y
  {
  }

  lemma Regrafted(m: Snapshot, c: Ctx, l: Shape, x: Node, red: bool, s: Ctx, q: Shape)
    ensures Linked(m, Graft(s, Right(c, x, red, l)), q) <==> Linked(m, c, T(l, x, red, Plug(s, q)))
  {
    hide *;
    var base := Right(c, x, red, l);
    PlugLinked(m, Graft(s, base), q);
    GraftPlug(s, base, q);
    PlugLinked(m, base, Plug(s, q));
    RightUp(c, l, x, red, Plug(s, q));
    UpLinked(m, base, Plug(s, q));
  }

  lemma RegraftedNodes(c: Ctx, l: Shape, x: Node, red: bool, s: Ctx, q: Shape)
    ensures NodesC(Graft(s, Right(c, x, red, l))) + Nodes(q) == NodesC(c) + Nodes(T(l, x, red, Plug(s, q)))
  {
    hide *;
    var base := Right(c, x, red, l);
    PlugNodes(Graft(s, base), q);
    GraftPlug(s, base, q);
    PlugNodes(c, T(l, x, red, Plug(s, q)));
    PlugUp(c, l, x, red, Plug(s, q));
  }

  lemma PlugUp(c: Ctx, l: Shape, x: Node, red: bool, r: Shape)
    ensures Plug(Right(c, x, red, l), r) == Plug(c, T(l, x, red, r))
  {
  }

  /** The node that moves is one of the tree, and not the one that goes. */
  lemma NextIn(c: Ctx, l: Shape, x: Node, red: bool, r: Shape, s: Ctx, y: Node, red': bool, q: Shape)
    requires NextIs(s, r, y, red', q) && Apart(c, T(l, x, red, r))
    ensures y in NodesC(c) + Nodes(T(l, x, red, r)) && y != x && Plug(s, T(Nil, y, red', q)) == r
  {
    hide *;
    NextParts(s, r, y, red', q);
    PlugNodes(s, T(Nil, y, red', q));
    TreeParts(Nil, y, red', q);
    TreeParts(l, x, red, r);
    ApartParts(c, T(l, x, red, r));
  }

  // ---------- removal: balance and order ----------

  ghost predicate Settles(c: Ctx, t: Shape) {
    Balanced(Plug(c, t)) && !IsRed(Plug(c, t))
  }

  /** After a node of the given colour has been taken out above t. */
  ghost predicate Removing(c: Ctx, t: Shape, red: bool) {
    if red then Settles(c, t) else if IsRed(t) then Finishing(c, t) else Lacking(c, t)
  }

  lemma OneBalanced(c: Ctx, t: Shape, t': Shape)
    requires Settles(c, t) && t.T? && ((t' == t.l && t.r.Nil?) || (t' == t.r && t.l.Nil?))
    ensures Removing(c, t', t.red)
  {
    PlugBalanced(c, t);
    PlugBalanced(c, t');
    PlugBalanced(c, if t'.T? then t'.(red := false) else t');
    CalmerC(c, Height(t'));
    if c.Hole? {
      assert Plug(c, t) == t && Plug(c, t') == t';
      assert t'.T? ==> Plug(c, t'.(red := false)) == t'.(red := false);
    }
  }

  /** Whose place the next node takes does not matter to the balance. */
  lemma TwoBalanced(s: Ctx, base: Ctx, base': Ctx, t: Shape, red: bool)
    requires base.Right? && base'.Right? && base'.up == base.up && base'.red == base.red && base'.sib == base.sib && AllLeft(s)
    requires Removing(Graft(s, base), t, red)
    ensures Removing(Graft(s, base'), t, red)
  {
    var t' := if t.T? then t.(red := false) else t;
    var c, c' := Graft(s, base), Graft(s, base');
    GraftSame(s, base, base', Height(t), IsRed(t));
    GraftSame(s, base, base', Height(t'), IsRed(t'));
    GraftSame(s, base, base', Height(t) + 1, false);
    PlugBalanced(c, t);
    PlugBalanced(c', t);
    PlugBalanced(c, t');
    PlugBalanced(c', t');
  }

  /** q' is q without x. */
  ghost predicate RemovedFrom(q: seq<Node>, q': seq<Node>, x: Node) {
    exists i :: 0 <= i < |q| && q[i] == x && q' == q[..i] + q[i + 1..]
  }

  lemma RemovedNow(q: seq<Node>, a: seq<Node>, x: Node, b: seq<Node>)
    requires q == a + [x] + b
    ensures RemovedFrom(q, a + b, x)
  {
    assert q[|a|] == x && q[..|a|] == a && q[|a| + 1..] == b;
  }

  /** The nodes before x, and those after it. */
  lemma AroundNode(m: Snapshot, c: Ctx, t: Shape, x: Node) returns (a: seq<Node>, b: seq<Node>)
    requires t.T? && t.n == x && Threaded(m, InOrder(Plug(c, t))) && Distinct(Plug(c, t))
    ensures a == Before(c) + InOrder(t.l) && b == InOrder(t.r) + After(c)
    ensures InOrder(Plug(c, t)) == a + [x] + b && NoDup(a + [x] + b)
    ensures x in m && m[x].P == Last(a) && m[x].N == Head(b) && x !in a && x !in b
    ensures (forall z :: z in a || z in b ==> z in m) && (a != [] ==> Last(a) != Head(b))
  {
    PlugInOrder(c, t);
    InOrderOnce(Plug(c, t));
    a, b := Before(c) + InOrder(t.l), InOrder(t.r) + After(c);
    hide InOrder, Plug, Distinct;
    var q := a + [x] + b;
    assert InOrder(Plug(c, t)) == q;
    Surrounded(m, a, x, b);
  }

  lemma Surrounded(m: Snapshot, a: seq<Node>, x: Node, b: seq<Node>)
    requires Threaded(m, a + [x] + b) && NoDup(a + [x] + b)
    ensures x in m && m[x].P == Last(a) && m[x].N == Head(b) && x !in a && x !in b
    ensures (forall z :: z in a || z in b ==> z in m) && (a != [] ==> Last(a) != Head(b))
  {
    var q := a + [x] + b;
    assert ThreadedAt(m, q, |a|);
    forall i | 0 <= i < |a| ensures a[i] in m && a[i] != x && q[i] == a[i] {
      assert ThreadedAt(m, q, i) && q[|a|] == x;
    }
    forall i | 0 <= i < |b| ensures b[i] in m && b[i] != x {
      assert ThreadedAt(m, q, |a| + 1 + i) && q[|a|] == x && q[|a| + 1 + i] == b[i];
    }
    if a != [] && b != [] {
      assert q[|a| - 1] == Last(a) && q[|a| + 1] == Head(b);
    }
  }

  lemma UnthreadedKept(m: Snapshot, m': Snapshot, x: Node, a: seq<Node>, b: seq<Node>)
    requires Unthreaded(m, m', x, a, b) && Threaded(m, a + [x] + b) && NoDup(a + [x] + b)
    ensures Threaded(m', a + b)
  {
    var q, r := a + [x] + b, a + b;
    forall i: nat | i < |r| ensures ThreadedAt(m', r, i) {
      if i < |a| {
        UnthreadedBefore(m, m', x, a, b, i);
      } else {
        UnthreadedAfter(m, m', x, a, b, i);
      }
    }
  }

  lemma UnthreadedBefore(m: Snapshot, m': Snapshot, x: Node, a: seq<Node>, b: seq<Node>, i: nat)
    requires Unthreaded(m, m', x, a, b) && Threaded(m, a + [x] + b) && NoDup(a + [x] + b) && i < |a|
    ensures ThreadedAt(m', a + b, i)
  {
    var q, r := a + [x] + b, a + b;
    assert ThreadedAt(m, q, i);
    assert q[i] == r[i] == a[i] && q[|a|] == x && (i > 0 ==> q[i - 1] == r[i - 1] == a[i - 1]);
    assert i + 1 < |a| ==> q[i + 1] == r[i + 1] == a[i + 1];
    assert q[|a| - 1] == a[|a| - 1];
    assert |b| > 0 ==> q[|a| + 1] == b[0] == r[|a|];
  }

  lemma UnthreadedAfter(m: Snapshot, m': Snapshot, x: Node, a: seq<Node>, b: seq<Node>, i: nat)
    requires Unthreaded(m, m', x, a, b) && Threaded(m, a + [x] + b) && NoDup(a + [x] + b) && |a| <= i < |a| + |b|
    ensures ThreadedAt(m', a + b, i)
  {
    var q, r, j := a + [x] + b, a + b, i - |a|;
    assert ThreadedAt(m, q, i + 1);
    assert q[i + 1] == r[i] == b[j] && q[|a|] == x && (j + 1 < |b| ==> q[i + 2] == r[i + 1] == b[j + 1]);
    assert j > 0 ==> q[i] == r[i - 1] == b[j - 1];
    assert q[|a| + 1] == b[0];
    assert |a| > 0 ==> q[|a| - 1] == a[|a| - 1] == r[|a| - 1];
  }

  lemma ThreadsWithout(m: Snapshot, m': Snapshot, x: Node, q: seq<Node>)
    requires Threaded(m, q) && x !in q && m'.Keys == m.Keys - {x} && forall z :: z in m' ==> m'[z].P == m[z].P && m'[z].N == m[z].N
    ensures Threaded(m', q)
  {
    forall i: nat | i < |q| ensures ThreadedAt(m', q, i) {
      assert ThreadedAt(m, q, i) && q[i] in q;
    }
  }

  lemma OneInOrder(c: Ctx, t: Shape, t': Shape)
    requires t.T? && ((t' == t.l && t.r.Nil?) || (t' == t.r && t.l.Nil?))
    ensures InOrder(Plug(c, t')) == (Before(c) + InOrder(t.l)) + (InOrder(t.r) + After(c))
  {
    PlugInOrder(c, t');
    assert InOrder(Nil) == [];
  }

  lemma TwoInOrder(c: Ctx, l: Shape, x: Node, red: bool, r: Shape, s: Ctx, y: Node, red': bool, q: Shape)
    requires NextIs(s, r, y, red', q)
    ensures InOrder(Plug(Graft(s, Right(c, y, red, l)), q)) == (Before(c) + InOrder(l)) + (InOrder(r) + After(c))
  {
    hide *;
    var cy, c1, ty := Graft(s, Right(c, x, red, l)), Graft(s, Right(c, y, red, l)), T(Nil, y, red', q);
    NextParts(s, r, y, red', q);
    GraftSame(s, Right(c, x, red, l), Right(c, y, red, l), 0, false);
    PlugInOrder(c1, q);
    PlugInOrder(s, ty);
    SpineOrder(s, Right(c, y, red, l));
    LeafOrder(c, l, y, red, red', q);
    assert Before(c) + InOrder(l) + [y] + InOrder(q) + (After(s) + After(c)) == (Before(c) + InOrder(l)) + (([y] + InOrder(q) + After(s)) + After(c));
    assert [] + ([y] + InOrder(q)) + After(s) == [y] + InOrder(q) + After(s);
  }

  lemma LeafOrder(c: Ctx, l: Shape, y: Node, red: bool, red': bool, q: Shape)
    ensures InOrder(T(Nil, y, red', q)) == [y] + InOrder(q)
    ensures Before(Right(c, y, red, l)) == Before(c) + InOrder(l) + [y] && After(Right(c, y, red, l)) == After(c)
  {
    assert InOrder(Nil) == [];
  }

  lemma {:induction false} SpineOrder(s: Ctx, base: Ctx)
    requires AllLeft(s)
    ensures Before(s) == [] && After(Graft(s, base)) == After(s) + After(base)
  {
    if !s.Hole? {
      SpineOrder(s.up, base);
    }
  }

  /** The cells of all nodes but x have kept their threads, and x's is gone. */
  ghost predicate KeptThreads(m: Snapshot, m': Snapshot, x: Node) {
    m'.Keys == m.Keys - {x} && forall z :: z in m' ==> m'[z].P == m[z].P && m'[z].N == m[z].N
  }

  lemma OneThreads(m: Snapshot, m': Snapshot, c: Ctx, x: Node, next: Node?)
    requires UnlinkedOne(m, m', c, x, next)
    ensures KeptThreads(m, m', x)
  {
  }

  lemma TwoThreads(m: Snapshot, m': Snapshot, c: Ctx, x: Node, l: Node, r: Node, y: Node, p: Node, q: Node?)
    requires Spliced(m, m', c, x, l, r, y, p, q)
    ensures KeptThreads(m, m', x)
  {
  }

  lemma NextMade(s: Ctx, r: Shape, t: Shape)
    requires r.T? && t.T? && t.l.Nil? && Plug(s, t) == r && AllLeft(s)
    ensures NextIs(s, r, t.n, t.red, t.r) && T(Nil, t.n, t.red, t.r) == t
  {
    assert T(Nil, t.n, t.red, t.r) == t;
  }

  lemma ShapeParts(t: Shape)
    ensures t.T? ==> t == T(t.l, t.n, t.red, t.r)
  {
  }

  /** The root after the next node has taken its place. */
  lemma TwoRoot(s: Ctx, c: Ctx, y: Node, red: bool, l: Shape, q: Node?, x: Node)
    ensures Root(Graft(s, Right(c, y, red, l)), q) == if c.Hole? then y else Root(c, x)
  {
    GraftRoot(s, Right(c, y, red, l), q);
    RootSame(Right(c, y, red, l), Root(s, q), q);
    RootSame(c, y, x);
  }

  lemma {:induction false} GraftRoot(s: Ctx, base: Ctx, q: Node?)
    ensures Root(Graft(s, base), q) == Root(base, Root(s, q))
    decreases s
  {
    if !s.Hole? {
      GraftRoot(s.up, base, s.n);
    }
  }

  lemma SpineParent(s: Ctx, base: Ctx, p: Node)
    requires !base.Hole? && (s.Hole? || p == s.n)
    ensures Parent(Graft(s, base)) == if s.Hole? then base.n else p
  {
  }

  lemma RemovingMeans(c: Ctx, t: Shape, red: bool)
    requires Removing(c, t, red)
    ensures red ==> Balanced(Plug(c, t)) && !IsRed(Plug(c, t))
    ensures !red && IsRed(t) ==> Finishing(c, t)
    ensures !red && !IsRed(t) ==> Lacking(c, t)
  {
    hide Finishing, Lacking, Balanced, Plug, IsRed;
  }

  lemma FinishingNone(c: Ctx, t: Shape)
    requires Finishing(c, t)
    ensures t.Nil? ==> Balanced(Plug(c, t)) && !IsRed(Plug(c, t))
    ensures t.T? ==> Balanced(Plug(c, t.(red := false))) && !IsRed(Plug(c, t.(red := false)))
  {
    hide Balanced, Plug, IsRed;
  }

  /** node is the root exactly at the top. */
  lemma RootWhere(c: Ctx, t: Shape)
    requires Apart(c, t) || c.Hole?
    ensures Root(c, Top(t)) == Top(t) <==> c.Hole?
  {
    RootIn(c, Top(t));
    TopIn(t);
  }

  /** An empty lacking place is told apart from its sibling. */
  lemma LackingSide(c: Ctx, t: Shape)
    requires Lacking(c, t) && !c.Hole?
    ensures c.sib.T?
  {
  }

  lemma Neighbours(a: seq<Node>, b: seq<Node>)
    ensures Last(a) != null ==> a != [] && Last(a) in a
    ensures Head(b) != null ==> b != [] && Head(b) in b
  {
  }

  lemma UnthreadedLinks(m: Snapshot, m': Snapshot, x: Node, a: seq<Node>, b: seq<Node>)
    requires Unthreaded(m, m', x, a, b)
    ensures m'.Keys == m.Keys && forall z :: z in m ==> SameLinks(m[z], m'[z])
  {
  }

  lemma SettlesSo(c: Ctx, t: Shape)
    ensures Settles(c, t) <==> Balanced(Plug(c, t)) && !IsRed(Plug(c, t))
  {
  }

  lemma ThreadsLess(m: Snapshot, m': Snapshot, x: Node, a: seq<Node>, b: seq<Node>)
    requires KeptThreads(m, m', x) && Threaded(m, a + b) && x !in a && x !in b
    ensures Threaded(m', a + b)
  {
    ThreadsWithout(m, m', x, a + b);
  }

  class Tree {
    var root: Node?
    ghost var nodes: set<Node>
    ghost var shape: Shape

    /** The tree has the shape Plug(c, t). */
    ghost predicate At(c: Ctx, t: Shape)
      reads this`root, this`nodes, nodes
    {
      nodes == NodesC(c) + Nodes(t) && root == Root(c, Top(t)) && Linked(Snap(nodes), c, t)
    }

    lemma AtParts(c: Ctx, t: Shape)
      requires At(c, t)
      ensures nodes == NodesC(c) + Nodes(t) && root == Root(c, Top(t)) && Linked(Snap(nodes), c, t)
    {
      hide Nodes, NodesC, Root, Linked;
    }

    lemma AtMade(c: Ctx, t: Shape)
      requires nodes == NodesC(c) + Nodes(t) && root == Root(c, Top(t)) && Linked(Snap(nodes), c, t)
      ensures At(c, t)
    {
      hide Nodes, NodesC, Root, Linked;
    }

    /** q takes the place of p below p's parent. */
    method Supplant(p: Node, q: Node, ghost c: Ctx)
      requires Hangs(Snap(nodes), c, p) && q in nodes && q != p && q != Parent(c)
      modifies this`root, nodes`L, nodes`R, nodes`U
      ensures Snap(nodes) == WithUp(WithChild(old(Snap(nodes)), c, q), q, Parent(c)) && root == if c.Hole? then q else old(root)
    {
      hide *;
      SnapKeys(nodes);
      HangsIn(Snap(nodes), c, p);
      SnapCell(nodes, p);
      var parent := p.U;
      SetChild(p, parent, q, c);
      SetUp(q, parent);
    }

    /** p goes below q, to the left, with what has been there. */
    method TieLeft(p: Node, q: Node, ghost b: Node?)
      requires p in nodes && q in nodes && p != q && q.L == b && (b != null ==> b in nodes && b != p && b != q)
      modifies p`R, nodes`U, q`L
      ensures Tied(old(Snap(nodes)), Snap(nodes), p, q, b, true)
    {
      p.U := q;
      p.R := q.L;
      if p.R != null {
        p.R.U := p;
      }
      q.L := p;
    }

    /** p goes below q, to the right, with what has been there. */
    method TieRight(p: Node, q: Node, ghost b: Node?)
      requires p in nodes && q in nodes && p != q && q.R == b && (b != null ==> b in nodes && b != p && b != q)
      modifies p`L, nodes`U, q`R
      ensures Tied(old(Snap(nodes)), Snap(nodes), p, q, b, false)
    {
      p.U := q;
      p.L := q.R;
      if p.L != null {
        p.L.U := p;
      }
      q.R := p;
    }

    /** The writes that turn p and its right child left. */
    method RelinkLeft(p: Node, ghost c: Ctx, ghost a: Shape, ghost b: Shape, ghost q': Node, ghost r: Shape)
      requires TurnsLeft(Snap(nodes), c, p, q', Top(b)) && (c.Hole? ==> root == p)
      modifies this`root, nodes`L, nodes`R, nodes`U
      ensures TurnedLeft(old(Snap(nodes)), Snap(nodes), c, a, p, b, q', r)
      ensures root == if c.Hole? then q' else old(root)
    {
      hide *;
      ghost var m := Snap(nodes);
      SnapKeys(nodes);
      TurnsLeftParts(m, c, p, q', Top(b));
      SnapCell(nodes, p);
      var q := p.R;
      Supplant(p, q, c);
      SnapCell(nodes, q);
      SupplantedAt(m, c, p, q);
      TieLeft(p, q, Top(b));
      TurnedLeftMade(m, Snap(nodes), c, a, p, b, q, r);
    }

    /** Rotates t's top p down to the left. */
    method RotateLeft(p: Node, ghost c: Ctx, ghost t: Shape)
      requires At(c, t) && t.T? && t.n == p && t.r.T?
      modifies this`root, nodes`L, nodes`R, nodes`U
      ensures At(c, TurnLeft(t)) && SameThreads(old(Snap(nodes)), Snap(nodes))
    {
      hide *;
      ghost var m, q := Snap(nodes), t.r.n;
      AtParts(c, t);
      TurnsLeftNow(m, c, t);
      LeftShape(t);
      RootOf(c, p, q);
      RelinkLeft(p, c, t.l, t.r.l, q, t.r.r);
      LeftTurn(m, Snap(nodes), c, t.l, p, t.red, t.r.l, q, t.r.red, t.r.r);
      LeftThreads(m, Snap(nodes), c, t.l, p, t.r.l, q, t.r.r);
      TurnNodes(t);
      AtMade(c, TurnLeft(t));
    }

    /** The writes that turn p and its left child right. */
    method RelinkRight(p: Node, ghost c: Ctx, ghost a: Shape, ghost b: Shape, ghost q': Node, ghost r: Shape)
      requires TurnsRight(Snap(nodes), c, p, q', Top(b)) && (c.Hole? ==> root == p)
      modifies this`root, nodes`L, nodes`R, nodes`U
      ensures TurnedRight(old(Snap(nodes)), Snap(nodes), c, a, q', b, p, r)
      ensures root == if c.Hole? then q' else old(root)
    {
      hide *;
      ghost var m := Snap(nodes);
      SnapKeys(nodes);
      TurnsRightParts(m, c, p, q', Top(b));
      SnapCell(nodes, p);
      var q := p.L;
      Supplant(p, q, c);
      SnapCell(nodes, q);
      SupplantedAt(m, c, p, q);
      TieRight(p, q, Top(b));
      TurnedRightMade(m, Snap(nodes), c, a, q, b, p, r);
    }

    /** Rotates t's top p down to the right. */
    method RotateRight(p: Node, ghost c: Ctx, ghost t: Shape)
      requires At(c, t) && t.T? && t.n == p && t.l.T?
      modifies this`root, nodes`L, nodes`R, nodes`U
      ensures At(c, TurnRight(t)) && SameThreads(old(Snap(nodes)), Snap(nodes))
    {
      hide *;
      ghost var m, q := Snap(nodes), t.l.n;
      AtParts(c, t);
      TurnsRightNow(m, c, t);
      RightShape(t);
      RootOf(c, p, q);
      RelinkRight(p, c, t.l.l, t.l.r, q, t.r);
      RightTurn(m, Snap(nodes), c, t.l.l, q, t.l.red, t.l.r, p, t.red, t.r);
      RightThreads(m, Snap(nodes), c, t.l.l, q, t.l.r, p, t.r);
      TurnNodes(t);
      AtMade(c, TurnRight(t));
    }

    method SetC(x: Node, red: bool)
      requires x in nodes
      modifies x`C
      ensures Snap(nodes) == old(Snap(nodes))[x := old(Snap(nodes))[x].(C := red)]
    {
      x.C := red;
    }

    /** Paints x, the top of t. */
    method Paint(x: Node, red: bool, ghost c: Ctx, ghost t: Shape)
      requires At(c, t) && t.T? && t.n == x
      modifies x`C
      ensures At(c, t.(red := red)) && SameThreads(old(Snap(nodes)), Snap(nodes))
    {
      hide *;
      ghost var m := Snap(nodes);
      AtParts(c, t);
      TopIn(t);
      SnapKeys(nodes);
      SetC(x, red);
      Painted(m, Snap(nodes), c, t, red);
      PaintThreads(m, Snap(nodes), x, red);
      TopShape(t);
      TopShape(t.(red := red));
      AtMade(c, t.(red := red));
    }

    /** The same tree, looked at from one node up. */
    lemma AtUp(c: Ctx, t: Shape)
      requires !c.Hole?
      ensures At(c, t) <==> At(c.up, Up(c, t))
      ensures Plug(c, t) == Plug(c.up, Up(c, t))
    {
      UpLinked(Snap(nodes), c, t);
      assert Nodes(Up(c, t)) == Nodes(t) + {c.n} + Nodes(c.sib);
      hide Linked, Snap;
    }

    /** The links of t's top, and of the node above. */
    lemma Reads(c: Ctx, t: Shape)
      requires At(c, t)
      ensures t.T? ==> t.n in nodes && t.n.L == Top(t.l) && t.n.R == Top(t.r) && t.n.U == Parent(c) && t.n.C == t.red
      ensures !c.Hole? ==> c.n in nodes && c.n.U == Parent(c.up) && c.n.C == c.red && c.n != Top(t)
      ensures c.Left? ==> c.n.L == Top(t) && c.n.R == Top(c.sib)
      ensures c.Right? ==> c.n.R == Top(t) && c.n.L == Top(c.sib)
      ensures !c.Hole? && t.T? ==> (c.Left? <==> c.n.L == t.n) && (c.Right? <==> c.n.R == t.n)
      ensures !c.Hole? && c.sib.T? ==> c.sib.n in nodes && c.sib.n.C == c.sib.red && c.sib.n.L == Top(c.sib.l) && c.sib.n.R == Top(c.sib.r)
    {
      TopIn(t);
      if !c.Hole? {
        TopIn(c.sib);
      }
    }

    lemma AtFlip(c: Ctx, t: Shape)
      requires !c.Hole?
      ensures At(c, t) <==> At(Flip(c, t), c.sib)
      ensures Plug(c, t) == Plug(Flip(c, t), c.sib)
    {
      hide *;
      FlipUp(c, t);
      AtUp(c, t);
      AtUp(Flip(c, t), c.sib);
    }

    // ---------- insertion ----------

    /** A red uncle: parent and uncle turn black, the grandparent red, and the fault moves up. */
    method Recolour(parent: Node, uncle: Node, grandpa: Node, ghost c: Ctx, ghost t: Shape)
      requires At(c, t) && Inserting(c, t) && !c.Hole? && c.red && !c.up.Hole? && c.n == parent && c.up.n == grandpa
      requires IsRed(c.up.sib) && c.up.sib.n == uncle
      modifies nodes`C
      ensures At(c.up.up, Recoloured(c, t)) && Inserting(c.up.up, Recoloured(c, t))
      ensures InOrder(Plug(c.up.up, Recoloured(c, t))) == InOrder(Plug(c, t))
      ensures SameThreads(old(Snap(nodes)), Snap(nodes))
    {
      hide *;
      IsRedMeans(c.up.sib);
      ghost var m0, p, u := Snap(nodes), Up(PaintC(c, false), t), c.up.sib.(red := false);
      UpParts(c, t);
      AtUp(c, t);
      Reads(c.up, Up(c, t));
      AtFlip(c.up, Up(c, t));
      Paint(uncle, false, Flip(c.up, Up(c, t)), c.up.sib);
      ghost var m1 := Snap(nodes);
      FlipBack(c.up, Up(c, t), u);
      AtFlip(WithSib(c.up, u), Up(c, t));
      Reads(WithSib(c.up, u), Up(c, t));
      Paint(parent, false, WithSib(c.up, u), Up(c, t));
      ghost var m2 := Snap(nodes);
      AtUp(WithSib(c.up, u), p);
      UpParts(WithSib(c.up, u), p);
      Reads(c.up.up, Up(WithSib(c.up, u), p));
      Paint(grandpa, true, c.up.up, Up(WithSib(c.up, u), p));
      ThreadsOn(m0, m1, m2);
      ThreadsOn(m0, m2, Snap(nodes));
      RecolouredIs(c, t);
      RecolouredInserting(c, t);
      AtUp(c.up, Up(c, t));
      SameInOrder(c.up.up, Up(c.up, Up(c, t)), Recoloured(c, t));
    }

    /** An outer grandchild with a black uncle: its parent rises above the grandparent. */
    method RaiseLeft(parent: Node, grandpa: Node, ghost c: Ctx, ghost t: Shape)
      requires At(c, t) && Inserting(c, t) && c.Left? && c.red && c.up.Left? && !IsRed(c.up.sib) && c.n == parent && c.up.n == grandpa
      modifies this`root, nodes`L, nodes`R, nodes`U, nodes`C
      ensures At(RaisedLeftCtx(c), t) && Inserting(RaisedLeftCtx(c), t)
      ensures InOrder(Plug(RaisedLeftCtx(c), t)) == InOrder(Plug(c, t))
      ensures SameThreads(old(Snap(nodes)), Snap(nodes))
    {
      hide *;
      ghost var m0, p := Snap(nodes), Up(PaintC(c, false), t);
      UpParts(c, t);
      AtUp(c, t);
      Reads(c.up, Up(c, t));
      Paint(parent, false, c.up, Up(c, t));
      ghost var m1 := Snap(nodes);
      AtUp(c.up, p);
      UpParts(c.up, p);
      Reads(c.up.up, Up(c.up, p));
      Paint(grandpa, true, c.up.up, Up(c.up, p));
      ghost var m2 := Snap(nodes);
      ghost var g := Up(PaintC(c.up, true), p);
      UpParts(PaintC(c.up, true), p);
      RotateRight(grandpa, c.up.up, g);
      ThreadsOn(m0, m1, m2);
      ThreadsOn(m0, m2, Snap(nodes));
      RaisedLeft(c, t);
      RaisedIs(c);
      AtUp(RaisedLeftCtx(c), t);
      AtUp(c.up, Up(c, t));
      RaisedInOrder(c, t);
      SameInOrder(c.up.up, Up(c.up, Up(c, t)), TurnRight(g));
    }


    method RaiseRight(parent: Node, grandpa: Node, ghost c: Ctx, ghost t: Shape)
      requires At(c, t) && Inserting(c, t) && c.Right? && c.red && c.up.Right? && !IsRed(c.up.sib) && c.n == parent && c.up.n == grandpa
      modifies this`root, nodes`L, nodes`R, nodes`U, nodes`C
      ensures At(RaisedRightCtx(c), t) && Inserting(RaisedRightCtx(c), t)
      ensures InOrder(Plug(RaisedRightCtx(c), t)) == InOrder(Plug(c, t))
      ensures SameThreads(old(Snap(nodes)), Snap(nodes))
    {
      hide *;
      ghost var m0, p := Snap(nodes), Up(PaintC(c, false), t);
      UpParts(c, t);
      AtUp(c, t);
      Reads(c.up, Up(c, t));
      Paint(parent, false, c.up, Up(c, t));
      ghost var m1 := Snap(nodes);
      AtUp(c.up, p);
      UpParts(c.up, p);
      Reads(c.up.up, Up(c.up, p));
      Paint(grandpa, true, c.up.up, Up(c.up, p));
      ghost var m2 := Snap(nodes);
      ghost var g := Up(PaintC(c.up, true), p);
      UpParts(PaintC(c.up, true), p);
      RotateLeft(grandpa, c.up.up, g);
      ThreadsOn(m0, m1, m2);
      ThreadsOn(m0, m2, Snap(nodes));
      RaisedRight(c, t);
      RaisedIs(c);
      AtUp(RaisedRightCtx(c), t);
      AtUp(c.up, Up(c, t));
      RaisedInOrder(c, t);
      SameInOrder(c.up.up, Up(c.up, Up(c, t)), TurnLeft(g));
    }


    /** One round of the loop after an insertion, when the parent is a left child. */
    method FixLeft(after: Node, parent: Node, grandpa: Node, ghost c: Ctx, ghost t: Shape)
      returns (after': Node, ghost c': Ctx, ghost t': Shape)
      requires At(c, t) && Inserting(c, t) && !c.Hole? && c.red && c.up.Left? && Top(t) == after && c.n == parent && c.up.n == grandpa
      modifies this`root, nodes`L, nodes`R, nodes`U, nodes`C
      ensures At(c', t') && Inserting(c', t') && Top(t') == after' && InOrder(Plug(c', t')) == InOrder(Plug(c, t))
      ensures Size(c') < Size(c) || (!c'.Hole? && !c'.red)
      ensures SameThreads(old(Snap(nodes)), Snap(nodes))
    {
      hide *;
      Reads(c, t);
      AtUp(c, t);
      Reads(c.up, Up(c, t));
      IsRedMeans(c.up.sib);
      SiblingTop(c.up);
      InsertingTop(c, t);
      var uncle := grandpa.R;
      if uncle != null && uncle.C {
        Recolour(parent, uncle, grandpa, c, t);
        after', c', t' := grandpa, c.up.up, Recoloured(c, t);
        RecolouredTop(c, t);
      } else {
        ghost var m0, x := Snap(nodes), t;
        after', c', t' := after, c, t;
        var p: Node? := parent;
        if after' == parent.R {
          UpParts(c, t);
          RotateLeft(parent, c.up, Up(c, t));
          StraightLeft(c, t);
          TurnNodes(Up(c, t));
          SameInOrder(c.up, Up(c, t), TurnLeft(Up(c, t)));
          c', t' := Left(c.up, t.n, t.red, t.r), T(c.sib, c.n, c.red, t.l);
          AtUp(c', t');
          after' := parent;
          Reads(c', t');
          ParentIs(c');
          p := after'.U;
          TopShape(t');
        }
        ghost var m1 := Snap(nodes);
        RaiseLeft(p, grandpa, c', t');
        ThreadsOn(m0, m1, Snap(nodes));
        RaisedIs(c');
        c' := RaisedLeftCtx(c');
      }
    }

    /** The same, when the parent is a right child. */
    method FixRight(after: Node, parent: Node, grandpa: Node, ghost c: Ctx, ghost t: Shape)
      returns (after': Node, ghost c': Ctx, ghost t': Shape)
      requires At(c, t) && Inserting(c, t) && !c.Hole? && c.red && c.up.Right? && Top(t) == after && c.n == parent && c.up.n == grandpa
      modifies this`root, nodes`L, nodes`R, nodes`U, nodes`C
      ensures At(c', t') && Inserting(c', t') && Top(t') == after' && InOrder(Plug(c', t')) == InOrder(Plug(c, t))
      ensures Size(c') < Size(c) || (!c'.Hole? && !c'.red)
      ensures SameThreads(old(Snap(nodes)), Snap(nodes))
    {
      hide *;
      Reads(c, t);
      AtUp(c, t);
      Reads(c.up, Up(c, t));
      IsRedMeans(c.up.sib);
      SiblingTop(c.up);
      InsertingTop(c, t);
      var uncle := grandpa.L;
      if uncle != null && uncle.C {
        Recolour(parent, uncle, grandpa, c, t);
        after', c', t' := grandpa, c.up.up, Recoloured(c, t);
        RecolouredTop(c, t);
      } else {
        ghost var m0, x := Snap(nodes), t;
        after', c', t' := after, c, t;
        var p: Node? := parent;
        if after' == parent.L {
          UpParts(c, t);
          RotateRight(parent, c.up, Up(c, t));
          StraightRight(c, t);
          TurnNodes(Up(c, t));
          SameInOrder(c.up, Up(c, t), TurnRight(Up(c, t)));
          c', t' := Right(c.up, t.n, t.red, t.l), T(t.r, c.n, c.red, c.sib);
          AtUp(c', t');
          after' := parent;
          Reads(c', t');
          ParentIs(c');
          p := after'.U;
          TopShape(t');
        }
        ghost var m1 := Snap(nodes);
        RaiseRight(p, grandpa, c', t');
        ThreadsOn(m0, m1, Snap(nodes));
        RaisedIs(c');
        c' := RaisedRightCtx(c');
      }
    }

    /** Repairs the colours after a red node has been put in; the order of the nodes stays as it is. */
    method FixInsertion(node: Node, ghost c0: Ctx, ghost t0: Shape)
      requires At(c0, t0) && Inserting(c0, t0) && Top(t0) == node
      modifies this`root, this`shape, nodes`L, nodes`R, nodes`U, nodes`C
      ensures At(Hole, shape) && Balanced(shape) && !IsRed(shape) && InOrder(shape) == InOrder(Plug(c0, t0))
      ensures SameThreads(old(Snap(nodes)), Snap(nodes))
    {
      hide *;
      ghost var m0 := Snap(nodes);
      ghost var c, t := c0, t0;
      var after := node;
      InsertingTop(c, t);
      Reads(c, t);
      var parent := after.U;
      SameSelf(m0);
      while parent != null && parent.C
        invariant At(c, t) && Inserting(c, t) && Top(t) == after && parent == Parent(c)
        invariant InOrder(Plug(c, t)) == InOrder(Plug(c0, t0))
        invariant SameThreads(m0, Snap(nodes))
        decreases if parent == null || !parent.C then 0 else Size(c) + 1
      {
        ParentIs(c);
        Reads(c, t);
        HasGrandparent(c, t);
        AtUp(c, t);
        UpParts(c, t);
        Reads(c.up, Up(c, t));
        ghost var m1, cc, tt := Snap(nodes), c, t;
        InsertingTop(c, t);
        ParentIs(c.up);
        var grandpa := parent.U;
        if parent == grandpa.L {
          after, c, t := FixLeft(after, parent, grandpa, cc, tt);
        } else {
          after, c, t := FixRight(after, parent, grandpa, cc, tt);
        }
        ThreadsOn(m0, m1, Snap(nodes));
        InsertingTop(c, t);
        Reads(c, t);
        parent := after.U;
        ParentIs(c);
      }
      Reads(c, t);
      ParentIs(c);
      InsertingEnds(c, t);
      ToTop(c, t);
      ghost var m2, whole := Snap(nodes), Plug(c, t);
      Reads(Hole, whole);
      TopShape(whole);
      Paint(root, false, Hole, whole);
      ThreadsOn(m0, m2, Snap(nodes));
      shape := whole.(red := false);
      IsRedMeans(shape);
    }

    lemma ToTop(c: Ctx, t: Shape)
      requires At(c, t)
      ensures At(Hole, Plug(c, t)) && root == Top(Plug(c, t))
    {
      PlugLinked(Snap(nodes), c, t);
      PlugNodes(c, t);
    }

    // ---------- putting a node in ----------

    /** The first node below `node`. */
    method First(node: Node, ghost c0: Ctx, ghost t0: Shape) returns (r: Node, ghost c: Ctx, ghost t: Shape, ghost s: Ctx)
      requires At(c0, t0) && Top(t0) == node
      ensures At(c, t) && Top(t) == r && t.T? && t.l.Nil? && Plug(c, t) == Plug(c0, t0) && Before(c) == Before(c0)
      ensures c == Graft(s, c0) && Plug(s, t) == t0 && AllLeft(s)
    {
      hide *;
      r, c, t, s := node, c0, t0, Hole;
      NoSpine(c0, t0);
      TopOf(t);
      Reads(c, t);
      while r.L != null
        invariant At(c, t) && Top(t) == r && t.T? && Plug(c, t) == Plug(c0, t0) && Before(c) == Before(c0)
        invariant r in nodes && r.L == Top(t.l)
        invariant c == Graft(s, c0) && Plug(s, t) == t0 && AllLeft(s)
        decreases t
      {
        GoLeft(c, t);
        Longer(s, c0, t);
        s := Left(s, t.n, t.red, t.r);
        AtUp(Left(c, t.n, t.red, t.r), t.l);
        c, t := Left(c, t.n, t.red, t.r), t.l;
        r := r.L;
        TopOf(t);
        Reads(c, t);
      }
      TopOf(t.l);
    }

    ghost predicate Valid()
      reads this, nodes
    {
      At(Hole, shape) && Threaded(Snap(nodes), InOrder(shape)) && Balanced(shape) && !IsRed(shape)
    }

    lemma ValidParts()
      requires Valid()
      ensures At(Hole, shape) && Threaded(Snap(nodes), InOrder(shape)) && Balanced(shape) && !IsRed(shape)
    {
      hide At, Threaded, InOrder, Balanced, IsRed;
    }

    /** The nodes in order. */
    ghost function List(): seq<Node>
      reads this`shape
    {
      InOrder(shape)
    }

    constructor ()
      ensures Valid() && nodes == {} && List() == []
    {
      root, nodes, shape := null, {}, Nil;
    }

    /** Looking at a subtree. */
    lemma FromTop(c: Ctx, t: Shape)
      requires At(Hole, Plug(c, t))
      ensures At(c, t)
    {
      PlugLinked(Snap(nodes), c, t);
      PlugNodes(c, t);
    }

    /** Threads node in after its predecessor, the last of a. */
    method ThreadAfter(after: Node, node: Node, ghost a: seq<Node>, ghost b: seq<Node>)
      requires after in nodes && node !in nodes && after == Last(a) && after.N == Head(b) && (b != [] ==> b[0] in nodes && b[0] != after)
      modifies nodes`P, nodes`N, node`P, node`N
      ensures Rethreaded(old(Snap(nodes)), Snap(nodes), node, a, b) && node.P == Last(a) && node.N == Head(b)
    {
      node.P := after;
      node.N := after.N;
      if after.N != null {
        after.N.P := node;
      }
      after.N := node;
    }

    method HangLeft(parent: Node, node: Node?)
      requires parent in nodes
      modifies parent`L
      ensures Snap(nodes) == old(Snap(nodes))[parent := old(Snap(nodes))[parent].(L := node)]
    {
      parent.L := node;
    }

    method HangRight(parent: Node, node: Node?)
      requires parent in nodes
      modifies parent`R
      ensures Snap(nodes) == old(Snap(nodes))[parent := old(Snap(nodes))[parent].(R := node)]
    {
      parent.R := node;
    }

    /** Hangs node into the hole to the right of `after`. */
    method AttachAfter(after: Node, node: Node) returns (parent: Node, ghost c: Ctx)
      requires Valid() && node !in nodes && after in nodes
      modifies nodes`P, nodes`N, nodes`L, nodes`R, node`P, node`N
      ensures parent == Parent(c) && Plug(c, Nil) == shape && Last(Before(c)) == after && !c.Hole?
      ensures Attached(old(Snap(nodes)), Snap(nodes), c, node, Before(c), After(c))
      ensures node.P == Last(Before(c)) && node.N == Head(After(c))
    {
      hide *;
      ValidParts();
      AtParts(Hole, shape);
      NoneAround();
      ghost var m := Snap(nodes);
      SnapKeys(nodes);
      ghost var c0, t0 := Find(shape, after);
      FromTop(c0, t0);
      AtParts(c0, t0);
      DistinctTop(m, shape);
      ghost var a, b := AfterNode(m, c0, t0, after);
      SnapCell(nodes, after);
      ThreadAfter(after, node, a, b);
      ghost var m1 := Snap(nodes);
      RethreadedLinks(m, m1, node, a, b);
      LinkedFrame(m, m1, c0, t0);
      AtMade(c0, t0);
      Reads(c0, t0);
      ghost var c1 := Right(c0, t0.n, t0.red, t0.l);
      GoRight(c0, t0);
      AtUp(c1, t0.r);
      TopOf(t0.r);
      ParentIs(c1);
      if after.R != null {
        ghost var t1, s;
        parent, c1, t1, s := First(after.R, c1, t0.r);
        Reads(c1, t1);
        TopOf(t1);
        GoLeft(c1, t1);
        AtUp(Left(c1, t1.n, t1.red, t1.r), t1.l);
        c := Left(c1, t1.n, t1.red, t1.r);
        HangLeft(parent, node);
      } else {
        c := c1;
        parent := after;
        HangRight(parent, node);
      }
      ParentIs(c);
      SnapKeys(nodes);
      HoleSplits(c, a, b);
      AttachedNow(m, m1, Snap(nodes), c, node, a, b, parent);
    }

    lemma NoneAround()
      ensures NodesC(Hole) + Nodes(shape) == Nodes(shape)
    {
    }

    /** Threads node in before the first node. */
    method ThreadFirst(first: Node, node: Node, ghost b: seq<Node>)
      requires first in nodes && node !in nodes && Head(b) == first
      modifies first`P, first`L, node`P, node`N
      ensures node.P == null && node.N == first
      ensures Snap(nodes) == old(Snap(nodes))[first := old(Snap(nodes))[first].(P := node, L := node)]
    {
      node.P := null;
      node.N := first;
      first.P, first.L := node, node;
    }

    /** Hangs node to the left of all others. */
    method AttachFirst(node: Node) returns (parent: Node, ghost c: Ctx)
      requires Valid() && node !in nodes && root != null
      modifies nodes`P, nodes`L, node`P, node`N
      ensures parent == Parent(c) && Plug(c, Nil) == shape && Before(c) == [] && !c.Hole?
      ensures Attached(old(Snap(nodes)), Snap(nodes), c, node, Before(c), After(c))
      ensures node.P == Last(Before(c)) && node.N == Head(After(c))
    {
      hide *;
      ValidParts();
      AtParts(Hole, shape);
      TopHole(shape);
      ghost var m := Snap(nodes);
      SnapKeys(nodes);
      ghost var c1, t1, s;
      parent, c1, t1, s := First(root, Hole, shape);
      Reads(c1, t1);
      TopOf(t1);
      GoLeft(c1, t1);
      AtUp(Left(c1, t1.n, t1.red, t1.r), t1.l);
      c := Left(c1, t1.n, t1.red, t1.r);
      ParentIs(c);
      FirstNode(c, t1);
      HoleSplits(c, [], InOrder(shape));
      ThreadFirst(parent, node, After(c));
      SnapKeys(nodes);
      AttachedFirst(m, Snap(nodes), c, node, After(c));
    }

    /** Fills in the links of the node that has been put into the hole of c. */
    method Enter(node: Node, parent: Node?, ghost m: Snapshot, ghost c: Ctx, ghost a: seq<Node>, ghost b: seq<Node>)
      requires Attached(m, Snap(nodes), c, node, a, b) && node !in nodes && node.P == Last(a) && node.N == Head(b) && parent == Parent(c)
      modifies this`nodes, node`L, node`R, node`U, node`C
      ensures nodes == old(nodes) + {node} && Entered(m, Snap(nodes), c, node, a, b)
    {
      hide *;
      SnapAll(nodes);
      ghost var m0 := Snap(nodes);
      node.L, node.R := null, null;
      node.U := parent;
      node.C := true;
      nodes := nodes + {node};
      SnapAll(nodes);
      EnteredMade(m, m0, Snap(nodes), c, node, a, b);
    }

    /** Puts node in right after `after`, or before all others. */
    method Insert(after: Node?, node: Node)
      requires Valid() && node !in nodes && (after != null ==> after in nodes)
      modifies this, nodes, node
      ensures Valid() && nodes == old(nodes) + {node} && InsertedAfter(old(List()), List(), after, node)
    {
      hide *;
      ValidParts();
      AtParts(Hole, shape);
      TopHole(shape);
      ListIs();
      ghost var m, c, shape0, nodes0 := Snap(nodes), Hole, shape, nodes;
      SnapKeys(nodes);
      var parent: Node?;
      if after != null {
        parent, c := AttachAfter(after, node);
      } else if root != null {
        parent, c := AttachFirst(node);
      } else {
        EmptyAttached(m, node);
        node.P, node.N := null, null;
        root := node;
        parent := null;
      }
      ghost var a, b, leaf := Before(c), After(c), T(Nil, node, true, Nil);
      HoleRoot(m, c, shape0, node);
      Enter(node, parent, m, c, a, b);
      Filled(m, Snap(nodes), c, node, a, b, shape0, nodes0);
      AtMade(c, leaf);
      LeafTop(node);
      ghost var m1 := Snap(nodes);
      FixInsertion(node, c, leaf);
      ThreadsKept(m1, Snap(nodes), a + [node] + b);
      ValidMade();
      ListIs();
      InsertedNow(shape0, shape, c, after, node);
    }

    lemma ListIs()
      ensures List() == InOrder(shape)
    {
    }

    lemma ValidMade()
      requires At(Hole, shape) && Threaded(Snap(nodes), InOrder(shape)) && Balanced(shape) && !IsRed(shape)
      ensures Valid()
    {
      hide At, Threaded, InOrder, Balanced, IsRed;
    }

    // ---------- removal: repairing the colours ----------

    method PaintParent(x: Node, red: bool, ghost c: Ctx, ghost t: Shape)
      requires At(c, t) && !c.Hole? && c.n == x
      modifies x`C
      ensures At(PaintC(c, red), t) && SameThreads(old(Snap(nodes)), Snap(nodes))
      ensures InOrder(Plug(PaintC(c, red), t)) == InOrder(Plug(c, t))
    {
      hide *;
      AtUp(c, t);
      UpParts(c, t);
      Paint(x, red, c.up, Up(c, t));
      AtUp(PaintC(c, red), t);
      PaintInOrder(Up(c, t), red);
      SameInOrder(c.up, Up(c, t), Up(c, t).(red := red));
    }

    method PaintSibling(x: Node, red: bool, ghost c: Ctx, ghost t: Shape)
      requires At(c, t) && !c.Hole? && c.sib.T? && c.sib.n == x
      modifies x`C
      ensures At(WithSib(c, c.sib.(red := red)), t) && SameThreads(old(Snap(nodes)), Snap(nodes))
      ensures InOrder(Plug(WithSib(c, c.sib.(red := red)), t)) == InOrder(Plug(c, t))
    {
      hide *;
      ghost var s := c.sib.(red := red);
      AtFlip(c, t);
      FlipUp(c, t);
      Paint(x, red, Flip(c, t), c.sib);
      FlipBack(c, t, s);
      AtFlip(WithSib(c, s), t);
      PaintInOrder(c.sib, red);
      SameInOrder(Flip(c, t), c.sib, s);
    }

    /** Paints the left child of the sibling. */
    method PaintLeftNephew(x: Node, red: bool, ghost c: Ctx, ghost t: Shape)
      requires At(c, t) && !c.Hole? && c.sib.T? && c.sib.l.T? && c.sib.l.n == x
      modifies x`C
      ensures At(WithSib(c, c.sib.(l := c.sib.l.(red := red))), t) && SameThreads(old(Snap(nodes)), Snap(nodes))
      ensures InOrder(Plug(WithSib(c, c.sib.(l := c.sib.l.(red := red))), t)) == InOrder(Plug(c, t))
    {
      hide *;
      ghost var s, d := c.sib.(l := c.sib.l.(red := red)), Left(Flip(c, t), c.sib.n, c.sib.red, c.sib.r);
      AtFlip(c, t);
      FlipUp(c, t);
      GoLeft(Flip(c, t), c.sib);
      AtUp(d, c.sib.l);
      Paint(x, red, d, c.sib.l);
      GoLeft(Flip(c, t), s);
      AtUp(d, s.l);
      FlipBack(c, t, s);
      AtFlip(WithSib(c, s), t);
      PaintInOrder(c.sib.l, red);
      SameInOrder(d, c.sib.l, s.l);
    }

    method PaintRightNephew(x: Node, red: bool, ghost c: Ctx, ghost t: Shape)
      requires At(c, t) && !c.Hole? && c.sib.T? && c.sib.r.T? && c.sib.r.n == x
      modifies x`C
      ensures At(WithSib(c, c.sib.(r := c.sib.r.(red := red))), t) && SameThreads(old(Snap(nodes)), Snap(nodes))
      ensures InOrder(Plug(WithSib(c, c.sib.(r := c.sib.r.(red := red))), t)) == InOrder(Plug(c, t))
    {
      hide *;
      ghost var s, d := c.sib.(r := c.sib.r.(red := red)), Right(Flip(c, t), c.sib.n, c.sib.red, c.sib.l);
      AtFlip(c, t);
      FlipUp(c, t);
      GoRight(Flip(c, t), c.sib);
      AtUp(d, c.sib.r);
      Paint(x, red, d, c.sib.r);
      GoRight(Flip(c, t), s);
      AtUp(d, s.r);
      FlipBack(c, t, s);
      AtFlip(WithSib(c, s), t);
      PaintInOrder(c.sib.r, red);
      SameInOrder(d, c.sib.r, s.r);
    }

    /** The links of the sibling's children. */
    lemma ReadsNephews(c: Ctx, t: Shape)
      requires At(c, t) && !c.Hole? && c.sib.T?
      ensures c.sib.n in nodes && c.sib.n.L == Top(c.sib.l) && c.sib.n.R == Top(c.sib.r) && c.sib.n.C == c.sib.red
      ensures c.sib.l.T? ==> c.sib.l.n in nodes && c.sib.l.n.C == c.sib.l.red
      ensures c.sib.r.T? ==> c.sib.r.n in nodes && c.sib.r.n.C == c.sib.r.red
    {
      hide *;
      AtFlip(c, t);
      FlipUp(c, t);
      Reads(Flip(c, t), c.sib);
      GoLeft(Flip(c, t), c.sib);
      GoRight(Flip(c, t), c.sib);
      AtUp(Left(Flip(c, t), c.sib.n, c.sib.red, c.sib.r), c.sib.l);
      AtUp(Right(Flip(c, t), c.sib.n, c.sib.red, c.sib.l), c.sib.r);
      Reads(Left(Flip(c, t), c.sib.n, c.sib.red, c.sib.r), c.sib.l);
      Reads(Right(Flip(c, t), c.sib.n, c.sib.red, c.sib.l), c.sib.r);
    }

    /** A red sibling on the right rises above the parent. */
    method SinkLeft(parent: Node, sibling: Node, ghost c: Ctx, ghost t: Shape) returns (ghost c': Ctx)
      requires At(c, t) && Lacking(c, t) && c.Left? && c.n == parent && c.sib.T? && c.sib.red && c.sib.n == sibling
      modifies this`root, nodes`L, nodes`R, nodes`U, nodes`C
      ensures At(c', t) && Lacking(c', t) && c'.Left? && c'.n == parent && c'.red && c'.sib == c.sib.l && !c'.up.Hole?
      ensures InOrder(Plug(c', t)) == InOrder(Plug(c, t)) && SameThreads(old(Snap(nodes)), Snap(nodes))
    {
      hide *;
      ghost var m0, c1 := Snap(nodes), WithSib(c, c.sib.(red := false));
      Reads(c, t);
      PaintSibling(sibling, false, c, t);
      ghost var m1 := Snap(nodes);
      Reads(c1, t);
      PaintParent(parent, true, c1, t);
      ghost var m2, c2 := Snap(nodes), PaintC(c1, true);
      AtUp(c2, t);
      UpParts(c2, t);
      RotateLeft(parent, c2.up, Up(c2, t));
      ThreadsOn(m0, m1, m2);
      ThreadsOn(m0, m2, Snap(nodes));
      SunkLeft(c, t);
      TurnNodes(Up(c2, t));
      SameInOrder(c2.up, Up(c2, t), TurnLeft(Up(c2, t)));
      c' := Left(Left(c.up, c.sib.n, false, c.sib.r), c.n, true, c.sib.l);
      AtUp(Left(c.up, c.sib.n, false, c.sib.r), T(t, c.n, true, c.sib.l));
      AtUp(c', t);
    }

    /** The red nephew on the left comes to the outside. */
    method TurnOutLeft(parent: Node, sibling: Node, ghost c: Ctx, ghost t: Shape) returns (ghost c': Ctx)
      requires At(c, t) && Lacking(c, t) && c.Left? && c.n == parent && c.sib.T? && !c.sib.red && c.sib.n == sibling
      requires IsRed(c.sib.l) && !IsRed(c.sib.r)
      modifies this`root, nodes`L, nodes`R, nodes`U, nodes`C
      ensures At(c', t) && Lacking(c', t) && c'.Left? && c'.n == parent && c'.red == c.red && c'.up == c.up
      ensures c'.sib.T? && !c'.sib.red && IsRed(c'.sib.r)
      ensures InOrder(Plug(c', t)) == InOrder(Plug(c, t)) && SameThreads(old(Snap(nodes)), Snap(nodes))
    {
      hide *;
      IsRedMeans(c.sib.l);
      IsRedMeans(c.sib.r);
      ghost var m0, c1 := Snap(nodes), WithSib(c, c.sib.(l := c.sib.l.(red := false)));
      ReadsNephews(c, t);
      TopOf(c.sib.l);
      PaintLeftNephew(sibling.L, false, c, t);
      ghost var m1 := Snap(nodes);
      ReadsNephews(c1, t);
      PaintSibling(sibling, true, c1, t);
      ghost var m2, c2 := Snap(nodes), WithSib(c1, c1.sib.(red := true));
      AtFlip(c2, t);
      RotateRight(sibling, Flip(c2, t), c2.sib);
      ThreadsOn(m0, m1, m2);
      ThreadsOn(m0, m2, Snap(nodes));
      TurnedOut(c, t);
      c' := WithSib(c, TurnRight(c2.sib));
      SibTwice(c, c2, TurnRight(c2.sib));
      FlipBack(c2, t, TurnRight(c2.sib));
      AtFlip(c', t);
      SibInOrder(c, t, TurnRight(c2.sib));
    }

    /** The sibling on the right takes the parent's place. */
    method FeedLeft(parent: Node, sibling: Node, ghost c: Ctx, ghost t: Shape) returns (ghost t': Shape)
      requires At(c, t) && Lacking(c, t) && c.Left? && c.n == parent && c.sib.T? && !c.sib.red && c.sib.n == sibling && IsRed(c.sib.r)
      modifies this`root, nodes`L, nodes`R, nodes`U, nodes`C
      ensures At(Hole, t') && Top(t') == root && Finishing(Hole, t')
      ensures InOrder(Plug(Hole, t')) == InOrder(Plug(c, t)) && SameThreads(old(Snap(nodes)), Snap(nodes))
    {
      hide *;
      IsRedMeans(c.sib.r);
      Reads(c, t);
      ghost var m0, c1 := Snap(nodes), WithSib(c, c.sib.(red := c.red));
      PaintSibling(sibling, parent.C, c, t);
      ghost var m1 := Snap(nodes);
      ReadsNephews(c1, t);
      TopOf(c1.sib.r);
      PaintRightNephew(sibling.R, false, c1, t);
      ghost var m2, c2 := Snap(nodes), WithSib(c1, c1.sib.(r := c1.sib.r.(red := false)));
      Reads(c2, t);
      PaintParent(parent, false, c2, t);
      ghost var m3, c3 := Snap(nodes), PaintC(c2, false);
      AtUp(c3, t);
      UpParts(c3, t);
      ghost var r := TurnLeft(Up(c3, t));
      RotateLeft(parent, c3.up, Up(c3, t));
      ThreadsOn(m0, m1, m2);
      ThreadsOn(m0, m2, m3);
      ThreadsOn(m0, m3, Snap(nodes));
      TurnNodes(Up(c3, t));
      SameInOrder(c3.up, Up(c3, t), r);
      FedLeft(c, t);
      SibTwice(c, c2, c2.sib);
      t' := Plug(c.up, r);
      ToTop(c.up, r);
      WholeEnds(t');
    }

    /** A red sibling on the left rises above the parent. */
    method SinkRight(parent: Node, sibling: Node, ghost c: Ctx, ghost t: Shape) returns (ghost c': Ctx)
      requires At(c, t) && Lacking(c, t) && c.Right? && c.n == parent && c.sib.T? && c.sib.red && c.sib.n == sibling
      modifies this`root, nodes`L, nodes`R, nodes`U, nodes`C
      ensures At(c', t) && Lacking(c', t) && c'.Right? && c'.n == parent && c'.red && c'.sib == c.sib.r && !c'.up.Hole?
      ensures InOrder(Plug(c', t)) == InOrder(Plug(c, t)) && SameThreads(old(Snap(nodes)), Snap(nodes))
    {
      hide *;
      ghost var m0, c1 := Snap(nodes), WithSib(c, c.sib.(red := false));
      Reads(c, t);
      PaintSibling(sibling, false, c, t);
      ghost var m1 := Snap(nodes);
      Reads(c1, t);
      PaintParent(parent, true, c1, t);
      ghost var m2, c2 := Snap(nodes), PaintC(c1, true);
      AtUp(c2, t);
      UpParts(c2, t);
      RotateRight(parent, c2.up, Up(c2, t));
      ThreadsOn(m0, m1, m2);
      ThreadsOn(m0, m2, Snap(nodes));
      SunkRight(c, t);
      TurnNodes(Up(c2, t));
      SameInOrder(c2.up, Up(c2, t), TurnRight(Up(c2, t)));
      c' := Right(Right(c.up, c.sib.n, false, c.sib.l), c.n, true, c.sib.r);
      AtUp(Right(c.up, c.sib.n, false, c.sib.l), T(c.sib.r, c.n, true, t));
      AtUp(c', t);
    }

    /** The red nephew on the right comes to the outside. */
    method TurnOutRight(parent: Node, sibling: Node, ghost c: Ctx, ghost t: Shape) returns (ghost c': Ctx)
      requires At(c, t) && Lacking(c, t) && c.Right? && c.n == parent && c.sib.T? && !c.sib.red && c.sib.n == sibling
      requires IsRed(c.sib.r) && !IsRed(c.sib.l)
      modifies this`root, nodes`L, nodes`R, nodes`U, nodes`C
      ensures At(c', t) && Lacking(c', t) && c'.Right? && c'.n == parent && c'.red == c.red && c'.up == c.up
      ensures c'.sib.T? && !c'.sib.red && IsRed(c'.sib.l)
      ensures InOrder(Plug(c', t)) == InOrder(Plug(c, t)) && SameThreads(old(Snap(nodes)), Snap(nodes))
    {
      hide *;
      IsRedMeans(c.sib.l);
      IsRedMeans(c.sib.r);
      ghost var m0, c1 := Snap(nodes), WithSib(c, c.sib.(r := c.sib.r.(red := false)));
      ReadsNephews(c, t);
      TopOf(c.sib.r);
      PaintRightNephew(sibling.R, false, c, t);
      ghost var m1 := Snap(nodes);
      ReadsNephews(c1, t);
      PaintSibling(sibling, true, c1, t);
      ghost var m2, c2 := Snap(nodes), WithSib(c1, c1.sib.(red := true));
      AtFlip(c2, t);
      RotateLeft(sibling, Flip(c2, t), c2.sib);
      ThreadsOn(m0, m1, m2);
      ThreadsOn(m0, m2, Snap(nodes));
      TurnedOut(c, t);
      c' := WithSib(c, TurnLeft(c2.sib));
      SibTwice(c, c2, TurnLeft(c2.sib));
      FlipBack(c2, t, TurnLeft(c2.sib));
      AtFlip(c', t);
      SibInOrder(c, t, TurnLeft(c2.sib));
    }

    /** The sibling on the left takes the parent's place. */
    method FeedRight(parent: Node, sibling: Node, ghost c: Ctx, ghost t: Shape) returns (ghost t': Shape)
      requires At(c, t) && Lacking(c, t) && c.Right? && c.n == parent && c.sib.T? && !c.sib.red && c.sib.n == sibling && IsRed(c.sib.l)
      modifies this`root, nodes`L, nodes`R, nodes`U, nodes`C
      ensures At(Hole, t') && Top(t') == root && Finishing(Hole, t')
      ensures InOrder(Plug(Hole, t')) == InOrder(Plug(c, t)) && SameThreads(old(Snap(nodes)), Snap(nodes))
    {
      hide *;
      IsRedMeans(c.sib.l);
      Reads(c, t);
      ghost var m0, c1 := Snap(nodes), WithSib(c, c.sib.(red := c.red));
      PaintSibling(sibling, parent.C, c, t);
      ghost var m1 := Snap(nodes);
      ReadsNephews(c1, t);
      TopOf(c1.sib.l);
      PaintLeftNephew(sibling.L, false, c1, t);
      ghost var m2, c2 := Snap(nodes), WithSib(c1, c1.sib.(l := c1.sib.l.(red := false)));
      Reads(c2, t);
      PaintParent(parent, false, c2, t);
      ghost var m3, c3 := Snap(nodes), PaintC(c2, false);
      AtUp(c3, t);
      UpParts(c3, t);
      ghost var r := TurnRight(Up(c3, t));
      RotateRight(parent, c3.up, Up(c3, t));
      ThreadsOn(m0, m1, m2);
      ThreadsOn(m0, m2, m3);
      ThreadsOn(m0, m3, Snap(nodes));
      TurnNodes(Up(c3, t));
      SameInOrder(c3.up, Up(c3, t), r);
      FedRight(c, t);
      SibTwice(c, c2, c2.sib);
      t' := Plug(c.up, r);
      ToTop(c.up, r);
      WholeEnds(t');
    }

    /** A black sibling without red children turns red; the lack moves up to the parent. */
    method Starve(parent: Node, sibling: Node, ghost c: Ctx, ghost t: Shape) returns (ghost t': Shape)
      requires At(c, t) && Lacking(c, t) && !c.Hole? && c.n == parent && c.sib.T? && !c.sib.red && c.sib.n == sibling
      requires !IsRed(c.sib.l) && !IsRed(c.sib.r)
      modifies nodes`C
      ensures At(c.up, t') && Top(t') == parent && (if c.red then Finishing(c.up, t') else Lacking(c.up, t'))
      ensures parent in nodes && parent.C == c.red && parent.U == Parent(c.up)
      ensures InOrder(Plug(c.up, t')) == InOrder(Plug(c, t)) && SameThreads(old(Snap(nodes)), Snap(nodes))
    {
      hide *;
      ReadsNephews(c, t);
      PaintSibling(sibling, true, c, t);
      ghost var c1 := WithSib(c, c.sib.(red := true));
      t' := Up(c1, t);
      AtUp(c1, t);
      UpParts(c1, t);
      Starved(c, t);
      TopOf(t');
      Reads(c.up, t');
    }

    /** One round of the loop after a removal, when the lack is on the left: either it is made up, or it moves up. */
    method LeanLeft(node: Node?, parent: Node, ghost c: Ctx, ghost t: Shape)
      returns (node': Node?, parent': Node?, more: bool, ghost c': Ctx, ghost t': Shape)
      requires At(c, t) && Lacking(c, t) && c.Left? && c.n == parent && node == Top(t)
      modifies this`root, nodes`L, nodes`R, nodes`U, nodes`C
      ensures At(c', t') && node' == Top(t') && (if more then Lacking(c', t') && Size(c') < Size(c) && parent' == Parent(c') else Finishing(c', t'))
      ensures InOrder(Plug(c', t')) == InOrder(Plug(c, t)) && SameThreads(old(Snap(nodes)), Snap(nodes))
    {
      hide *;
      ghost var m0 := Snap(nodes);
      SameSelf(m0);
      c', t' := c, t;
      HasSibling(c, t);
      Reads(c, t);
      TopOf(c.sib);
      ReadsNephews(c, t);
      SizeUp(c);
      var sibling := parent.R;
      if sibling.C {
        TopOf(c.sib.l);
        c' := SinkLeft(parent, sibling, c, t);
        Reads(c', t);
        sibling := parent.R;
        ReadsNephews(c', t);
      }
      ghost var m1 := Snap(nodes);
      TopOf(c'.sib.l);
      TopOf(c'.sib.r);
      IsRedMeans(c'.sib.l);
      IsRedMeans(c'.sib.r);
      if (sibling.L != null && sibling.L.C) || (sibling.R != null && sibling.R.C) {
        if sibling.R == null || !sibling.R.C {
          c' := TurnOutLeft(parent, sibling, c', t);
          Reads(c', t);
          TopOf(c'.sib);
          sibling := parent.R;
        }
        ghost var m2 := Snap(nodes);
        ThreadsMaybe(m0, m1, m2);
        ghost var c2 := c';
        t' := FeedLeft(parent, sibling, c2, t);
        c' := Hole;
        node', parent', more := root, null, false;
        ThreadsOn(m0, m2, Snap(nodes));
      } else {
        ghost var c2 := c';
        t' := Starve(parent, sibling, c2, t);
        c' := c2.up;
        node' := parent;
        parent' := parent.U;
        more := !node'.C;
        ThreadsOn(m0, m1, Snap(nodes));
      }
    }

    /** The same, when the lack is on the right. */
    method LeanRight(node: Node?, parent: Node, ghost c: Ctx, ghost t: Shape)
      returns (node': Node?, parent': Node?, more: bool, ghost c': Ctx, ghost t': Shape)
      requires At(c, t) && Lacking(c, t) && c.Right? && c.n == parent && node == Top(t)
      modifies this`root, nodes`L, nodes`R, nodes`U, nodes`C
      ensures At(c', t') && node' == Top(t') && (if more then Lacking(c', t') && Size(c') < Size(c) && parent' == Parent(c') else Finishing(c', t'))
      ensures InOrder(Plug(c', t')) == InOrder(Plug(c, t)) && SameThreads(old(Snap(nodes)), Snap(nodes))
    {
      hide *;
      ghost var m0 := Snap(nodes);
      SameSelf(m0);
      c', t' := c, t;
      HasSibling(c, t);
      Reads(c, t);
      TopOf(c.sib);
      ReadsNephews(c, t);
      SizeUp(c);
      var sibling := parent.L;
      if sibling.C {
        TopOf(c.sib.r);
        c' := SinkRight(parent, sibling, c, t);
        Reads(c', t);
        sibling := parent.L;
        ReadsNephews(c', t);
      }
      ghost var m1 := Snap(nodes);
      TopOf(c'.sib.l);
      TopOf(c'.sib.r);
      IsRedMeans(c'.sib.l);
      IsRedMeans(c'.sib.r);
      if (sibling.L != null && sibling.L.C) || (sibling.R != null && sibling.R.C) {
        if sibling.L == null || !sibling.L.C {
          c' := TurnOutRight(parent, sibling, c', t);
          Reads(c', t);
          TopOf(c'.sib);
          sibling := parent.L;
        }
        ghost var m2 := Snap(nodes);
        ThreadsMaybe(m0, m1, m2);
        ghost var c2 := c';
        t' := FeedRight(parent, sibling, c2, t);
        c' := Hole;
        node', parent', more := root, null, false;
        ThreadsOn(m0, m2, Snap(nodes));
      } else {
        ghost var c2 := c';
        t' := Starve(parent, sibling, c2, t);
        c' := c2.up;
        node' := parent;
        parent' := parent.U;
        more := !node'.C;
        ThreadsOn(m0, m1, Snap(nodes));
      }
    }

    // ---------- removal: taking the node out ----------

    /** Takes x out of the thread between a and b. */
    method ThreadOut(x: Node, ghost a: seq<Node>, ghost b: seq<Node>)
      requires x in nodes && x.P == Last(a) && x.N == Head(b) && x.P != x && x.N != x
      requires (x.P != null ==> x.P in nodes) && (x.N != null ==> x.N in nodes) && (x.P == null || x.P != x.N)
      modifies nodes`P, nodes`N
      ensures Unthreaded(old(Snap(nodes)), Snap(nodes), x, a, b) && x.P == null && x.N == null
    {
      hide *;
      ghost var m := Snap(nodes);
      SnapKeys(nodes);
      SnapCell(nodes, x);
      SetPrevious(x.N, x.P);
      SnapCell(nodes, x);
      ThreadsAt(m, x);
      SetNext(x.P, x.N);
      ghost var m2 := Snap(nodes);
      SnapKeys(nodes);
      ClearThread(x);
      UnthreadedMade(m, m2, Snap(nodes), x, a, b);
    }

    method ClearThread(x: Node)
      requires x in nodes
      modifies x`P, x`N
      ensures Snap(nodes) == old(Snap(nodes))[x := old(Snap(nodes))[x].(N := null, P := null)] && x.P == null && x.N == null
    {
      x.N, x.P := null, null;
    }

    method SetPrevious(node: Node?, previous: Node?)
      requires node != null ==> node in nodes
      modifies nodes`P
      ensures Snap(nodes) == WithPrevious(old(Snap(nodes)), node, previous)
    {
      if node != null {
        node.P := previous;
      }
    }

    method SetNext(node: Node?, next: Node?)
      requires node != null ==> node in nodes
      modifies nodes`N
      ensures Snap(nodes) == WithNext(old(Snap(nodes)), node, next)
    {
      if node != null {
        node.N := next;
      }
    }

    /** Lets `next` take x's place below its parent. */
    method SetChild(x: Node, parent: Node?, next: Node?, ghost c: Ctx)
      requires Hangs(Snap(nodes), c, x) && parent == Parent(c)
      modifies this`root, nodes`L, nodes`R
      ensures root == (if c.Hole? then next else old(root)) && Snap(nodes) == WithChild(old(Snap(nodes)), c, next)
    {
      if parent != null {
        if parent.L == x {
          parent.L := next;
        } else {
          parent.R := next;
        }
      } else {
        root := next;
      }
    }

    method SetUp(node: Node?, parent: Node?)
      requires node != null ==> node in nodes
      modifies nodes`U
      ensures Snap(nodes) == WithUp(old(Snap(nodes)), node, parent)
    {
      if node != null {
        node.U := parent;
      }
    }

    /** Takes out x, which has at most one child. */
    method UnlinkOne(x: Node, parent: Node?, next: Node?, ghost c: Ctx) returns (node: Node?, red: bool)
      requires Hangs(Snap(nodes), c, x) && parent == Parent(c) && (next != null ==> next in nodes && next != x && next != parent)
      modifies this`root, nodes`L, nodes`R, nodes`U
      ensures node == next && red == old(x.C) && root == (if c.Hole? then next else old(root))
      ensures UnlinkedOne(old(Snap(nodes)), Snap(nodes - {x}), c, x, next)
    {
      hide *;
      ghost var m := Snap(nodes);
      SnapKeys(nodes);
      HangsIn(m, c, x);
      SnapCell(nodes, x);
      SetChild(x, parent, next, c);
      WithChildC(m, c, next, x);
      SnapCell(nodes, x);
      red := x.C;
      node := next;
      SetUp(node, parent);
      SnapLess(nodes, x);
      UnlinkedNow(m, c, x, next);
    }

    /** The next node takes over x's colour and left child. */
    method Adopt(x: Node, left: Node, next: Node) returns (red: bool)
      requires x in nodes && left in nodes && next in nodes && left != next && x != next
      modifies next`C, next`L, left`U
      ensures red == old(next.C)
      ensures var m := old(Snap(nodes)); Snap(nodes) == m[next := m[next].(C := m[x].C, L := left)][left := m[left].(U := next)]
    {
      red := next.C;
      next.C := x.C;
      next.L := left;
      left.U := next;
    }

    /** The next node leaves its place further down to its right child. */
    method Lift(x: Node, right: Node, next: Node) returns (node: Node?, parent: Node)
      requires x in nodes && right in nodes && next in nodes && right != next && next.U != null && next.U in nodes && next.U != next
      modifies nodes`U, next`R, nodes`L
      ensures node == old(next.R) && parent == old(next.U)
      ensures var m := old(Snap(nodes)); Snap(nodes) == Lifted(m, x, right, next)
    {
      hide *;
      ghost var m := Snap(nodes);
      SnapKeys(nodes);
      parent := next.U;
      SnapCell(nodes, next);
      SnapCell(nodes, x);
      SetUp(next, x.U);
      SnapKeys(nodes);
      WithUpAt(m, next, x.U);
      SnapCell(nodes, next);
      ghost var m1 := Snap(nodes);
      node := next.R;
      HangLeft(parent, node);
      ghost var m2 := Snap(nodes);
      SnapKeys(nodes);
      HangRight(next, right);
      SnapKeys(nodes);
      SetUp(right, next);
      LiftedMade(m, m1, m2, Snap(nodes), x, right, next, parent);
    }

    /** Takes out x, which has two children: the next node y takes its place. p is y's parent, and q its right child. */
    method UnlinkTwo(x: Node, parent0: Node?, left: Node, right: Node, next: Node, ghost c: Ctx, ghost p: Node, ghost q: Node?)
      returns (node: Node?, parent: Node, red: bool)
      requires Hangs(Snap(nodes), c, x) && parent0 == Parent(c) && Splices(Snap(nodes), c, x, left, right, next, p, q)
      modifies this`root, nodes`L, nodes`R, nodes`U, nodes`C
      ensures node == q && red == old(next.C) && root == (if c.Hole? then next else old(root))
      ensures parent == if next == right then next else p
      ensures Spliced(old(Snap(nodes)), Snap(nodes - {x}), c, x, left, right, next, p, q)
    {
      hide *;
      ghost var m := Snap(nodes);
      SnapKeys(nodes);
      HangsIn(m, c, x);
      SplicesIn(m, c, x, left, right, next, p, q);
      SnapCell(nodes, next);
      SetChild(x, parent0, next, c);
      ghost var m1 := Snap(nodes);
      WithChildC(m, c, next, next);
      SnapCell(nodes, next);
      red := Adopt(x, left, next);
      ghost var m2 := Snap(nodes);
      AfterAdopt(m, m1, m2, c, x, left, right, next, p, q);
      SnapCell(nodes, next);
      if next != right {
        node, parent := Lift(x, right, next);
        AfterLift(m, m2, Snap(nodes), c, x, left, right, next, p, q);
      } else {
        SetUp(next, parent0);
        parent := next;
        node := next.R;
        AfterMove(m, m2, Snap(nodes), c, x, left, right, next, p, q);
        SnapCell(nodes, next);
      }
      ghost var m3 := Snap(nodes);
      SetUp(node, parent);
      SnapLess(nodes, x);
      AfterAll(m, m3, Snap(nodes), c, x, left, right, next, p, q);
    }

    /** Takes out x with at most one child, and repairs all but the colours. */
    method RemoveOne(x: Node, ghost c: Ctx, ghost t: Shape) returns (node: Node?, parent: Node?, red: bool, ghost t': Shape)
      requires At(c, t) && t.T? && t.n == x && (t.l.Nil? || t.r.Nil?) && Settles(c, t)
      modifies this`root, this`nodes, nodes`L, nodes`R, nodes`U
      ensures nodes == old(nodes) - {x} && At(c, t') && node == Top(t') && parent == Parent(c) && Removing(c, t', red)
      ensures InOrder(Plug(c, t')) == (Before(c) + InOrder(t.l)) + (InOrder(t.r) + After(c))
      ensures KeptThreads(old(Snap(nodes)), Snap(nodes), x)
    {
      hide *;
      ghost var m := Snap(nodes);
      SnapKeys(nodes);
      AtParts(c, t);
      Reads(c, t);
      HangsNow(m, c, t);
      TopOf(t.l);
      TopOf(t.r);
      parent := x.U;
      var left, right := x.L, x.R;
      var next := if left == null then right else left;
      t' := if t.l.Nil? then t.r else t.l;
      ChildReads(c, t, t');
      node, red := UnlinkOne(x, parent, next, c);
      nodes := nodes - {x};
      OneLinked(m, Snap(nodes), c, t, t');
      OneThreads(m, Snap(nodes), c, x, next);
      OneBalanced(c, t, t');
      OneInOrder(c, t, t');
      RootSame(c, next, x);
      AtMade(c, t');
    }

    /** The only child of t's top. */
    lemma ChildReads(c: Ctx, t: Shape, t': Shape)
      requires At(c, t) && t.T? && (t' == t.l || t' == t.r)
      ensures Top(t') != null ==> Top(t') in nodes && Top(t') != t.n && Top(t') != Parent(c)
      ensures Top(t) == t.n
    {
      TopIn(t');
      ParentIn(c);
    }

    /** Takes out x with two children: the next node takes its place. */
    method RemoveTwo(x: Node, ghost c: Ctx, ghost t: Shape)
      returns (node: Node?, parent: Node?, red: bool, ghost c': Ctx, ghost t': Shape)
      requires At(c, t) && t.T? && t.n == x && t.l.T? && t.r.T? && Settles(c, t)
      modifies this`root, this`nodes, nodes`L, nodes`R, nodes`U, nodes`C
      ensures nodes == old(nodes) - {x} && At(c', t') && node == Top(t') && parent == Parent(c') && Removing(c', t', red)
      ensures InOrder(Plug(c', t')) == (Before(c) + InOrder(t.l)) + (InOrder(t.r) + After(c))
      ensures KeptThreads(old(Snap(nodes)), Snap(nodes), x)
    {
      hide *;
      ghost var m := Snap(nodes);
      SnapKeys(nodes);
      AtParts(c, t);
      Reads(c, t);
      TopOf(t.l);
      TopOf(t.r);
      var left, right := x.L, x.R;
      ghost var base := Right(c, x, t.red, t.l);
      GoRight(c, t);
      AtUp(base, t.r);
      var next: Node;
      ghost var cy, ty, s;
      next, cy, ty, s := First(right, base, t.r);
      NextMade(s, t.r, ty);
      SpineKind(s, base);
      ghost var p := if s.Hole? then x else s.n;
      ShapeParts(t);
      SpliceNodes(m, c, t.l, x, t.red, t.r, s, ty.n, ty.red, ty.r);
      Reads(cy, ty);
      SpineKind(s, Right(c, ty.n, t.red, t.l));
      TopOf(ty);
      node, parent, red := UnlinkTwo(x, x.U, left, right, next, c, p, Top(ty.r));
      nodes := nodes - {x};
      c', t' := Graft(s, Right(c, ty.n, t.red, t.l)), ty.r;
      TwoLinked(m, Snap(nodes), c, t.l, x, t.red, t.r, s, ty.n, ty.red, ty.r, p);
      TwoThreads(m, Snap(nodes), c, x, left, right, next, p, Top(ty.r));
      SettlesSo(c, t);
      SettlesSo(cy, ty);
      OneBalanced(cy, ty, ty.r);
      TwoBalanced(s, base, Right(c, ty.n, t.red, t.l), ty.r, ty.red);
      TwoInOrder(c, t.l, x, t.red, t.r, s, ty.n, ty.red, ty.r);
      TwoRoot(s, c, ty.n, t.red, t.l, Top(ty.r), x);
      SpineParent(s, Right(c, ty.n, t.red, t.l), p);
      AtMade(c', t');
    }

    /** Repairs the colours after a node has been taken out above t. */
    method FixRemoval(node0: Node?, parent0: Node?, red: bool, ghost c0: Ctx, ghost t0: Shape)
      requires At(c0, t0) && node0 == Top(t0) && parent0 == Parent(c0) && Removing(c0, t0, red)
      modifies this`root, this`shape, nodes`L, nodes`R, nodes`U, nodes`C
      ensures At(Hole, shape) && Balanced(shape) && !IsRed(shape) && InOrder(shape) == InOrder(Plug(c0, t0))
      ensures SameThreads(old(Snap(nodes)), Snap(nodes))
    {
      hide *;
      ghost var m0, c, t := Snap(nodes), c0, t0;
      SameSelf(m0);
      RemovingMeans(c0, t0, red);
      TopOf(t0);
      IsRedMeans(t0);
      Reads(c0, t0);
      var node, parent := node0, parent0;
      if red {
        shape := Plug(c0, t0);
        ToTop(c0, t0);
        return;
      }
      if node != null && node.C {
        Blacken(node, c, t);
        return;
      }
      var more := true;
      while more
        invariant At(c, t) && node == Top(t) && (if more then Lacking(c, t) && parent == Parent(c) else Finishing(c, t))
        invariant InOrder(Plug(c, t)) == InOrder(Plug(c0, t0)) && SameThreads(m0, Snap(nodes))
        decreases if more then Size(c) + 1 else 0
      {
        AtParts(c, t);
        LinkedApart(Snap(nodes), c, t);
        RootWhere(c, t);
        if node == root {
          LackingEnds(c, t);
          break;
        }
        ParentIs(c);
        Reads(c, t);
        LackingSide(c, t);
        HasSibling(c, t);
        TopOf(c.sib);
        TopOf(t);
        ghost var m1, cc, tt := Snap(nodes), c, t;
        if node == parent.L {
          node, parent, more, c, t := LeanLeft(node, parent, cc, tt);
        } else {
          node, parent, more, c, t := LeanRight(node, parent, cc, tt);
        }
        ThreadsOn(m0, m1, Snap(nodes));
      }
      ghost var m2 := Snap(nodes);
      TopOf(t);
      if node != null {
        Blacken(node, c, t);
      } else {
        FinishingNone(c, t);
        shape := Plug(c, t);
        ToTop(c, t);
      }
      ThreadsMaybe(m0, m2, Snap(nodes));
    }

    /** Paints t's top black, which makes the tree balanced. */
    method Blacken(node: Node, ghost c: Ctx, ghost t: Shape)
      requires At(c, t) && node == Top(t) && Finishing(c, t)
      modifies this`shape, nodes`C
      ensures At(Hole, shape) && Balanced(shape) && !IsRed(shape) && InOrder(shape) == InOrder(Plug(c, t))
      ensures SameThreads(old(Snap(nodes)), Snap(nodes))
    {
      hide *;
      TopOf(t);
      Reads(c, t);
      Paint(node, false, c, t);
      shape := Plug(c, t.(red := false));
      ToTop(c, t.(red := false));
      FinishingNone(c, t);
      PaintInOrder(t, false);
      SameInOrder(c, t, t.(red := false));
    }

    /** Takes node out of the tree and out of its thread. */
    method Remove(node: Node)
      requires Valid() && node in nodes
      modifies this, nodes
      ensures Valid() && nodes == old(nodes) - {node} && RemovedFrom(old(List()), List(), node)
      ensures node.P == null && node.N == null
    {
      hide *;
      ValidParts();
      AtParts(Hole, shape);
      NoneAround();
      ListIs();
      ghost var m, shape0 := Snap(nodes), shape;
      SnapKeys(nodes);
      SnapCell(nodes, node);
      ghost var c, t := Find(shape, node);
      FromTop(c, t);
      AtParts(c, t);
      DistinctTop(m, shape);
      ghost var a, b := AroundNode(m, c, t, node);
      Neighbours(a, b);
      ThreadOut(node, a, b);
      ghost var m1 := Snap(nodes);
      UnthreadedLinks(m, m1, node, a, b);
      LinkedFrame(m, m1, c, t);
      AtMade(c, t);
      UnthreadedKept(m, m1, node, a, b);
      Reads(c, t);
      TopOf(t.l);
      TopOf(t.r);
      SettlesSo(c, t);
      var next: Node?, parent: Node?, red: bool;
      ghost var c', t' := c, t;
      if node.L == null || node.R == null {
        next, parent, red, t' := RemoveOne(node, c, t);
      } else {
        next, parent, red, c', t' := RemoveTwo(node, c, t);
      }
      ghost var m2 := Snap(nodes);
      ThreadsLess(m1, m2, node, a, b);
      FixRemoval(next, parent, red, c', t');
      ThreadsKept(m2, Snap(nodes), a + b);
      ValidMade();
      ListIs();
      RemovedNow(InOrder(shape0), a, node, b);
    }
  }

  lemma SnapCell(nodes: set<Node>, x: Node)
    requires x in nodes
    ensures x in Snap(nodes) && Snap(nodes)[x] == Cell(x.L, x.R, x.U, x.C, x.P, x.N)
  {
  }

  lemma SnapLess(nodes: set<Node>, x: Node)
    requires x in nodes
    ensures Snap(nodes - {x}) == Snap(nodes) - {x}
  {
  }

  lemma SnapKeys(nodes: set<Node>)
    ensures Snap(nodes).Keys == nodes
  {
  }
}
