/** The shape of the threaded red-black tree: what its nodes' links mean, and what makes it
    balanced, stated on snapshots of the nodes. */
module RedBlackShapes {
  import opened Base

  /** L and R are the children, U the parent, C tells red from black; P and N thread the nodes in
      order. */
  class Node {
    var U: Node?
    var C: bool
    var L: Node?
    var R: Node?
    var P: Node?
    var N: Node?

    constructor ()
      ensures U == null && !C && L == null && R == null && P == null && N == null
    {
      U, C, L, R, P, N := null, false, null, null, null, null;
    }
  }

  datatype Cell = Cell(L: Node?, R: Node?, U: Node?, C: bool, P: Node?, N: Node?)

  type Snapshot = map<Node, Cell>

  ghost function Snap(nodes: set<Node>): Snapshot
    reads nodes
  {
    map x | x in nodes :: Cell(x.L, x.R, x.U, x.C, x.P, x.N)
  }

  datatype Shape = Nil | T(l: Shape, n: Node, red: bool, r: Shape)

  /** A tree with a hole in it: the hole is the left or the right child of n. */
  datatype Ctx = Hole | Left(up: Ctx, n: Node, red: bool, sib: Shape) | Right(up: Ctx, n: Node, red: bool, sib: Shape)

  function Top(t: Shape): Node? {
    if t.Nil? then null else t.n
  }

  function Parent(c: Ctx): Node? {
    if c.Hole? then null else c.n
  }

  function Root(c: Ctx, hole: Node?): Node? {
    if c.Hole? then hole else Root(c.up, c.n)
  }

  function Plug(c: Ctx, t: Shape): Shape {
    match c
    case Hole => t
    case Left(up, n, red, sib) => Plug(up, T(t, n, red, sib))
    case Right(up, n, red, sib) => Plug(up, T(sib, n, red, t))
  }

  function Nodes(t: Shape): set<Node> {
    if t.Nil? then {} else Nodes(t.l) + {t.n} + Nodes(t.r)
  }

  function NodesC(c: Ctx): set<Node> {
    if c.Hole? then {} else NodesC(c.up) + {c.n} + Nodes(c.sib)
  }

  function InOrder(t: Shape): seq<Node> {
    if t.Nil? then [] else InOrder(t.l) + [t.n] + InOrder(t.r)
  }

  /** What comes before and after the hole, in order. */
  function Before(c: Ctx): seq<Node> {
    match c
    case Hole => []
    case Left(up, n, red, sib) => Before(up)
    case Right(up, n, red, sib) => Before(up) + InOrder(sib) + [n]
  }

  function After(c: Ctx): seq<Node> {
    match c
    case Hole => []
    case Left(up, n, red, sib) => [n] + InOrder(sib) + After(up)
    case Right(up, n, red, sib) => After(up)
  }

  // ---------- links ----------

  /** The links of t's nodes are those of the shape t, hanging below up. */
  ghost predicate Fits(m: Snapshot, t: Shape, up: Node?) {
    t.T? ==>
      && t.n in m && m[t.n].L == Top(t.l) && m[t.n].R == Top(t.r) && m[t.n].U == up && m[t.n].C == t.red
      && Fits(m, t.l, t.n) && Fits(m, t.r, t.n)
  }

  /** The links of c's nodes are those of the shape c, with hole as the node in the hole. */
  ghost predicate FitsC(m: Snapshot, c: Ctx, hole: Node?) {
    !c.Hole? ==>
      && c.n in m && m[c.n].U == Parent(c.up) && m[c.n].C == c.red
      && m[c.n].L == (if c.Left? then hole else Top(c.sib)) && m[c.n].R == (if c.Left? then Top(c.sib) else hole)
      && Fits(m, c.sib, c.n) && FitsC(m, c.up, c.n)
  }

  ghost predicate Distinct(t: Shape) {
    t.T? ==> Distinct(t.l) && Distinct(t.r) && t.n !in Nodes(t.l) && t.n !in Nodes(t.r) && Nodes(t.l) !! Nodes(t.r)
  }

  ghost predicate DistinctC(c: Ctx) {
    !c.Hole? ==>
      DistinctC(c.up) && Distinct(c.sib) && c.n !in NodesC(c.up) && c.n !in Nodes(c.sib) && NodesC(c.up) !! Nodes(c.sib)
  }

  ghost predicate Apart(c: Ctx, t: Shape) {
    DistinctC(c) && Distinct(t) && NodesC(c) !! Nodes(t)
  }

  /** The tree with t in c. */
  ghost predicate Linked(m: Snapshot, c: Ctx, t: Shape) {
    FitsC(m, c, Top(t)) && Fits(m, t, Parent(c)) && Apart(c, t)
  }

  ghost predicate SameLinks(a: Cell, b: Cell) {
    a.L == b.L && a.R == b.R && a.U == b.U && a.C == b.C
  }

  /** Frames: links only depend on the nodes of the shape. */
  lemma {:induction false} FitsFrame(m: Snapshot, m': Snapshot, t: Shape, up: Node?)
    requires Fits(m, t, up) && forall x :: x in Nodes(t) && x in m ==> x in m' && SameLinks(m[x], m'[x])
    ensures Fits(m', t, up)
  {
    if t.T? {
      FitsFrame(m, m', t.l, t.n);
      FitsFrame(m, m', t.r, t.n);
    }
  }

  lemma {:induction false} FitsCFrame(m: Snapshot, m': Snapshot, c: Ctx, hole: Node?)
    requires FitsC(m, c, hole) && forall x :: x in NodesC(c) && x in m ==> x in m' && SameLinks(m[x], m'[x])
    ensures FitsC(m', c, hole)
  {
    if !c.Hole? {
      FitsFrame(m, m', c.sib, c.n);
      FitsCFrame(m, m', c.up, c.n);
    }
  }

  lemma {:induction false} FitsNodes(m: Snapshot, t: Shape, up: Node?)
    requires Fits(m, t, up)
    ensures Nodes(t) <= m.Keys
  {
    if t.T? {
      FitsNodes(m, t.l, t.n);
      FitsNodes(m, t.r, t.n);
    }
  }

  lemma {:induction false} FitsCNodes(m: Snapshot, c: Ctx, hole: Node?)
    requires FitsC(m, c, hole)
    ensures NodesC(c) <= m.Keys
  {
    if !c.Hole? {
      FitsNodes(m, c.sib, c.n);
      FitsCNodes(m, c.up, c.n);
    }
  }

  // ---------- plugging ----------

  /** One step up. */
  function Up(c: Ctx, t: Shape): Shape
    requires !c.Hole?
  {
    if c.Left? then T(t, c.n, c.red, c.sib) else T(c.sib, c.n, c.red, t)
  }

  lemma UpFits(m: Snapshot, c: Ctx, t: Shape)
    requires !c.Hole?
    ensures FitsC(m, c, Top(t)) && Fits(m, t, c.n) <==> FitsC(m, c.up, c.n) && Fits(m, Up(c, t), Parent(c.up))
  {
  }

  lemma UpApart(c: Ctx, t: Shape)
    requires !c.Hole?
    ensures Apart(c, t) <==> Apart(c.up, Up(c, t))
  {
    assert Nodes(Up(c, t)) == Nodes(t) + {c.n} + Nodes(c.sib);
  }

  lemma UpLinked(m: Snapshot, c: Ctx, t: Shape)
    requires !c.Hole?
    ensures Linked(m, c, t) <==> Linked(m, c.up, Up(c, t))
    ensures Plug(c, t) == Plug(c.up, Up(c, t)) && Top(Up(c, t)) == c.n
  {
    UpFits(m, c, t);
    UpApart(c, t);
    hide FitsC, Fits, Apart;
  }

  lemma {:induction false} PlugLinked(m: Snapshot, c: Ctx, t: Shape)
    ensures Linked(m, c, t) <==> Linked(m, Hole, Plug(c, t))
    ensures Top(Plug(c, t)) == Root(c, Top(t))
    decreases c
  {
    hide FitsC, Fits, Apart;
    if !c.Hole? {
      UpLinked(m, c, t);
      PlugLinked(m, c.up, Up(c, t));
    }
  }

  lemma {:induction false} PlugInOrder(c: Ctx, t: Shape)
    ensures InOrder(Plug(c, t)) == Before(c) + InOrder(t) + After(c)
    decreases c
  {
    match c
    case Hole =>
    case Left(up, n, red, sib) => PlugInOrder(up, T(t, n, red, sib));
    case Right(up, n, red, sib) => PlugInOrder(up, T(sib, n, red, t));
  }

  lemma {:induction false} PlugNodes(c: Ctx, t: Shape)
    ensures Nodes(Plug(c, t)) == NodesC(c) + Nodes(t)
    decreases c
  {
    match c
    case Hole =>
    case Left(up, n, red, sib) => PlugNodes(up, T(t, n, red, sib));
    case Right(up, n, red, sib) => PlugNodes(up, T(sib, n, red, t));
  }

  // ---------- balance ----------

  /** The number of black nodes on the way down. */
  function Height(t: Shape): nat {
    if t.Nil? then 0 else Height(t.l) + if t.red then 0 else 1
  }

  function IsRed(t: Shape): bool {
    t.T? && t.red
  }

  /** All ways down meet the same number of black nodes, and no red node has a red child. */
  ghost predicate Balanced(t: Shape) {
    t.T? ==> Balanced(t.l) && Balanced(t.r) && Height(t.l) == Height(t.r) && (t.red ==> !IsRed(t.l) && !IsRed(t.r))
  }

  /** c around a hole of height h: balanced, if the hole holds a balanced tree, red only if redHole. */
  ghost predicate BalancedC(c: Ctx, h: nat, redHole: bool) {
    !c.Hole? ==>
      && Balanced(c.sib) && Height(c.sib) == h && (c.red ==> !redHole && !IsRed(c.sib))
      && BalancedC(c.up, h + (if c.red then 0 else 1), c.red)
  }

  /** The top of c is black. */
  ghost predicate BlackTop(c: Ctx) {
    !c.Hole? ==> (if c.up.Hole? then !c.red else BlackTop(c.up))
  }

  lemma {:induction false} PlugBalanced(c: Ctx, t: Shape)
    ensures Balanced(Plug(c, t)) <==> Balanced(t) && BalancedC(c, Height(t), IsRed(t))
    ensures !c.Hole? ==> (BlackTop(c) <==> !IsRed(Plug(c, t)))
    decreases c
  {
    match c
    case Hole =>
    case Left(up, n, red, sib) => PlugBalanced(up, T(t, n, red, sib));
    case Right(up, n, red, sib) => PlugBalanced(up, T(sib, n, red, t));
  }

  /** Where a node is in a tree. */
  lemma {:induction false} Find(t: Shape, x: Node) returns (c: Ctx, s: Shape)
    requires x in Nodes(t)
    ensures Plug(c, s) == t && s.T? && s.n == x
  {
    assert Plug(Hole, t) == t;
    c, s := FindIn(Hole, t, x);
  }

  lemma {:induction false} FindIn(c0: Ctx, t: Shape, x: Node) returns (c: Ctx, s: Shape)
    requires x in Nodes(t)
    ensures Plug(c, s) == Plug(c0, t) && s.T? && s.n == x
    decreases t
  {
    if t.n == x {
      c, s := c0, t;
    } else if x in Nodes(t.l) {
      c, s := FindIn(Left(c0, t.n, t.red, t.r), t.l, x);
    } else {
      c, s := FindIn(Right(c0, t.n, t.red, t.l), t.r, x);
    }
  }

  // ---------- threads ----------

  /** The i-th node of q is threaded between its neighbours. */
  ghost predicate ThreadedAt(m: Snapshot, q: seq<Node>, i: nat) {
    i < |q| ==>
      && q[i] in m && m[q[i]].N == (if i + 1 < |q| then q[i + 1] else null)
      && m[q[i]].P == (if i > 0 then q[i - 1] else null)
  }

  /** P and N link the nodes of q in order. */
  ghost predicate Threaded(m: Snapshot, q: seq<Node>) {
    forall i: nat :: i < |q| ==> ThreadedAt(m, q, i)
  }

  ghost predicate Covers(q: seq<Node>, s: set<Node>) {
    (forall x :: x in q ==> x in s) && (forall x :: x in s ==> x in q)
  }

  lemma {:induction false} InOrderNodes(t: Shape)
    ensures Covers(InOrder(t), Nodes(t))
  {
    if t.T? {
      InOrderNodes(t.l);
      InOrderNodes(t.r);
    }
  }

  lemma Joined(a: seq<Node>, x: Node, b: seq<Node>)
    requires NoDup(a) && NoDup(b) && x !in a && x !in b && forall y :: y in a ==> y !in b
    ensures NoDup(a + [x] + b)
  {
    var q := a + [x] + b;
    forall i, j | 0 <= i < j < |q| ensures q[i] != q[j] {
      assert i < |a| ==> q[i] in a;
      assert j > |a| ==> q[j] in b;
    }
  }

  /** The nodes of a tree come once each in order. */
  lemma {:induction false} InOrderOnce(t: Shape)
    requires Distinct(t)
    ensures NoDup(InOrder(t))
  {
    if t.T? {
      InOrderOnce(t.l);
      InOrderOnce(t.r);
      NodesApart(t);
      hide *;
      Joined(InOrder(t.l), t.n, InOrder(t.r));
      InOrderUp(t);
    }
  }

  lemma InOrderUp(t: Shape)
    requires t.T?
    ensures InOrder(t) == InOrder(t.l) + [t.n] + InOrder(t.r)
  {
  }

  lemma DistinctParts(t: Shape)
    requires t.T? && Distinct(t)
    ensures t.n !in Nodes(t.l) && t.n !in Nodes(t.r) && forall y :: y in Nodes(t.l) ==> y !in Nodes(t.r)
  {
    hide Nodes;
  }

  lemma CoversApart(a: seq<Node>, s: set<Node>, n: Node, b: seq<Node>, r: set<Node>)
    requires Covers(a, s) && Covers(b, r) && n !in s && n !in r && forall y :: y in s ==> y !in r
    ensures n !in a && n !in b && forall y :: y in a ==> y !in b
  {
  }

  lemma NodesApart(t: Shape)
    requires t.T? && Distinct(t)
    ensures t.n !in InOrder(t.l) && t.n !in InOrder(t.r) && forall y :: y in InOrder(t.l) ==> y !in InOrder(t.r)
  {
    DistinctParts(t);
    InOrderNodes(t.l);
    InOrderNodes(t.r);
    hide Distinct, Nodes, Covers;
    CoversApart(InOrder(t.l), Nodes(t.l), t.n, InOrder(t.r), Nodes(t.r));
  }

  // ---------- rotations ----------

  /** The cells after p's right child q has been rotated above p. */
  ghost predicate TurnedLeft(m: Snapshot, m': Snapshot, c: Ctx, a: Shape, p: Node, b: Shape, q: Node, r: Shape) {
    && m'.Keys == m.Keys && p in m && q in m && (b.T? ==> b.n in m) && (!c.Hole? ==> c.n in m)
    && m'[p] == m[p].(R := Top(b), U := q)
    && m'[q] == m[q].(L := p, U := Parent(c))
    && (b.T? ==> m'[b.n] == m[b.n].(U := p))
    && (!c.Hole? ==> m'[c.n] == if c.Left? then m[c.n].(L := q) else m[c.n].(R := q))
    && (forall x :: x in m && x != p && x != q && x != Top(b) && x != Parent(c) ==> m'[x] == m[x])
  }

  /** The nodes involved in a rotation are all different, and none is elsewhere in the tree. */
  ghost predicate TurnApart(c: Ctx, a: Shape, p: Node, b: Shape, q: Node, r: Shape) {
    && p != q && p !in Nodes(a) && p !in Nodes(b) && p !in Nodes(r) && q !in Nodes(a) && q !in Nodes(b) && q !in Nodes(r)
    && Distinct(a) && Distinct(b) && Distinct(r) && DistinctC(c)
    && Nodes(a) !! Nodes(b) && Nodes(a) !! Nodes(r) && Nodes(b) !! Nodes(r)
    && p !in NodesC(c) && q !in NodesC(c) && NodesC(c) !! Nodes(a) && NodesC(c) !! Nodes(b) && NodesC(c) !! Nodes(r)
  }

  lemma TurnsApartRight(c: Ctx, a: Shape, p: Node, red: bool, b: Shape, q: Node, red': bool, r: Shape)
    ensures TurnApart(c, a, p, b, q, r) <==> Apart(c, T(a, p, red, T(b, q, red', r)))
  {
    assert Nodes(T(b, q, red', r)) == Nodes(b) + {q} + Nodes(r);
    assert Distinct(T(b, q, red', r)) <==> Distinct(b) && Distinct(r) && q !in Nodes(b) && q !in Nodes(r) && Nodes(b) !! Nodes(r);
  }

  lemma TurnsApart(c: Ctx, a: Shape, p: Node, red: bool, b: Shape, q: Node, red': bool, r: Shape)
    ensures TurnApart(c, a, p, b, q, r) <==> Apart(c, T(a, p, red, T(b, q, red', r)))
    ensures TurnApart(c, a, p, b, q, r) <==> Apart(c, T(T(a, p, red, b), q, red', r))
  {
    TurnsApartRight(c, a, p, red, b, q, red', r);
    assert Nodes(T(a, p, red, b)) == Nodes(a) + {p} + Nodes(b);
    assert Distinct(T(a, p, red, b)) <==> Distinct(a) && Distinct(b) && p !in Nodes(a) && p !in Nodes(b) && Nodes(a) !! Nodes(b);
  }

  /** The nodes of t have kept their links, but for those of its top. */
  ghost predicate KeptBelow(m: Snapshot, m': Snapshot, t: Shape) {
    forall x :: x in Nodes(t) && x in m && x != Top(t) ==> x in m' && SameLinks(m[x], m'[x])
  }

  lemma MovedBelow(m: Snapshot, m': Snapshot, t: Shape, up: Node, up': Node)
    requires Fits(m, t, up) && Distinct(t) && KeptBelow(m, m', t)
    requires t.T? ==> t.n in m && t.n in m' && SameLinks(m[t.n].(U := up'), m'[t.n])
    ensures Fits(m', t, up')
  {
    if t.T? {
      FitsFrame(m, m', t.l, t.n);
      FitsFrame(m, m', t.r, t.n);
    }
  }

  /** The context has got another node in its hole. */
  lemma MovedAbove(m: Snapshot, m': Snapshot, c: Ctx, p: Node?, q: Node?)
    requires FitsC(m, c, p) && DistinctC(c) && !c.Hole?
    requires forall x :: x in NodesC(c) && x in m && x != c.n ==> x in m' && SameLinks(m[x], m'[x])
    requires c.n in m && c.n in m' && SameLinks(if c.Left? then m[c.n].(L := q) else m[c.n].(R := q), m'[c.n])
    ensures FitsC(m', c, q)
  {
    FitsFrame(m, m', c.sib, c.n);
    FitsCFrame(m, m', c.up, c.n);
  }

  lemma TopIn(t: Shape)
    ensures t.T? ==> t.n in Nodes(t)
  {
  }

  lemma ParentIn(c: Ctx)
    ensures !c.Hole? ==> c.n in NodesC(c)
  {
  }

  lemma LeftTurnAbove(m: Snapshot, m': Snapshot, c: Ctx, a: Shape, p: Node, b: Shape, q: Node, r: Shape)
    requires FitsC(m, c, p) && TurnApart(c, a, p, b, q, r) && TurnedLeft(m, m', c, a, p, b, q, r)
    ensures FitsC(m', c, q)
  {
    TopIn(b);
    ParentIn(c);
    hide Nodes, NodesC, FitsC, Distinct, DistinctC;
    if c.Hole? {
      NoContext(m', c, q);
    } else {
      MovedAbove(m, m', c, p, q);
    }
  }

  lemma NoContext(m: Snapshot, c: Ctx, hole: Node?)
    requires c.Hole?
    ensures FitsC(m, c, hole)
  {
  }

  lemma LeftTurnBelow(m: Snapshot, m': Snapshot, c: Ctx, a: Shape, p: Node, red: bool, b: Shape, q: Node, red': bool, r: Shape)
    requires p in m && q in m && m[p].C == red && m[p].L == Top(a) && m[q].C == red' && m[q].R == Top(r)
    requires Fits(m, a, p) && Fits(m, b, q) && Fits(m, r, q) && TurnApart(c, a, p, b, q, r) && TurnedLeft(m, m', c, a, p, b, q, r)
    ensures Fits(m', T(T(a, p, red, b), q, red', r), Parent(c))
  {
    TopIn(b);
    ParentIn(c);
    FitsFrameOf(m, m', a, p);
    FitsFrameOf(m, m', r, q);
    MovedBelow(m, m', b, q, p);
    assert Fits(m', T(a, p, red, b), q);
  }

  lemma FitsFrameOf(m: Snapshot, m': Snapshot, t: Shape, up: Node)
    requires Fits(m, t, up) && forall x :: x in Nodes(t) && x in m ==> x in m' && SameLinks(m[x], m'[x])
    ensures Fits(m', t, up)
  {
    FitsFrame(m, m', t, up);
  }

  lemma LeftTurn(m: Snapshot, m': Snapshot, c: Ctx, a: Shape, p: Node, red: bool, b: Shape, q: Node, red': bool, r: Shape)
    requires Linked(m, c, T(a, p, red, T(b, q, red', r))) && TurnedLeft(m, m', c, a, p, b, q, r)
    ensures Linked(m', c, T(T(a, p, red, b), q, red', r))
  {
    TurnsApart(c, a, p, red, b, q, red', r);
    assert Fits(m, T(b, q, red', r), p);
    hide Nodes, NodesC, FitsC, Distinct, DistinctC, TurnApart, TurnedLeft, Apart;
    LeftTurnAbove(m, m', c, a, p, b, q, r);
    LeftTurnBelow(m, m', c, a, p, red, b, q, red', r);
  }

  /** The cells after p's left child q has been rotated above p. */
  ghost predicate TurnedRight(m: Snapshot, m': Snapshot, c: Ctx, a: Shape, q: Node, b: Shape, p: Node, r: Shape) {
    && m'.Keys == m.Keys && p in m && q in m && (b.T? ==> b.n in m) && (!c.Hole? ==> c.n in m)
    && m'[p] == m[p].(L := Top(b), U := q)
    && m'[q] == m[q].(R := p, U := Parent(c))
    && (b.T? ==> m'[b.n] == m[b.n].(U := p))
    && (!c.Hole? ==> m'[c.n] == if c.Left? then m[c.n].(L := q) else m[c.n].(R := q))
    && (forall x :: x in m && x != p && x != q && x != Top(b) && x != Parent(c) ==> m'[x] == m[x])
  }

  lemma RightTurnAbove(m: Snapshot, m': Snapshot, c: Ctx, a: Shape, q: Node, b: Shape, p: Node, r: Shape)
    requires FitsC(m, c, p) && TurnApart(c, a, q, b, p, r) && TurnedRight(m, m', c, a, q, b, p, r)
    ensures FitsC(m', c, q)
  {
    TopIn(b);
    ParentIn(c);
    hide Nodes, NodesC, FitsC, Distinct, DistinctC;
    if c.Hole? {
      NoContext(m', c, q);
    } else {
      MovedAbove(m, m', c, p, q);
    }
  }

  lemma RightTurnBelow(m: Snapshot, m': Snapshot, c: Ctx, a: Shape, q: Node, red': bool, b: Shape, p: Node, red: bool, r: Shape)
    requires p in m && q in m && m[p].C == red && m[p].R == Top(r) && m[q].C == red' && m[q].L == Top(a)
    requires Fits(m, a, q) && Fits(m, b, q) && Fits(m, r, p) && TurnApart(c, a, q, b, p, r) && TurnedRight(m, m', c, a, q, b, p, r)
    ensures Fits(m', T(a, q, red', T(b, p, red, r)), Parent(c))
  {
    TopIn(b);
    ParentIn(c);
    FitsFrameOf(m, m', a, q);
    FitsFrameOf(m, m', r, p);
    MovedBelow(m, m', b, q, p);
    assert Fits(m', T(b, p, red, r), q);
  }

  lemma RightTurn(m: Snapshot, m': Snapshot, c: Ctx, a: Shape, q: Node, red': bool, b: Shape, p: Node, red: bool, r: Shape)
    requires Linked(m, c, T(T(a, q, red', b), p, red, r)) && TurnedRight(m, m', c, a, q, b, p, r)
    ensures Linked(m', c, T(a, q, red', T(b, p, red, r)))
  {
    TurnsApart(c, a, q, red', b, p, red, r);
    assert Fits(m, T(a, q, red', b), p);
    hide Nodes, NodesC, FitsC, Distinct, DistinctC, TurnApart, TurnedRight, Apart;
    RightTurnAbove(m, m', c, a, q, b, p, r);
    RightTurnBelow(m, m', c, a, q, red', b, p, red, r);
  }
}
