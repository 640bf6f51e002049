/** Progress of the module loader: its own steps come to an end, and when all scripts have arrived every module that was asked for is
    defined, by breaking cycles where there are any. */
module LoaderCycles {
  import opened Base
  import opened Sums
  import opened Loaders

  // ---------- the loader's own steps come to an end ----------

  function Weight(m: Module): int {
    5 * (|m.deps| - m.next) + (if m.enabling then 2 else 0) + 2 * (|m.listeners| - m.notified)
  }

  ghost function Weights(mods: map<Id, Module>): Id -> int {
    x => if x in mods then Weight(mods[x]) else 0
  }

  ghost function Total(mods: map<Id, Module>): int {
    Sum(mods.Keys, Weights(mods))
  }

  ghost function Potential(s: State): int {
    Total(s.mods) + |s.todo|
  }

  lemma PutWeighs(mods: map<Id, Module>, x: Id, m: Module)
    ensures Total(mods[x := m]) == Total(mods) + Weight(m) - if x in mods then Weight(mods[x]) else 0
  {
    var mods' := mods[x := m];
    var f, g := Weights(mods), Weights(mods');
    if x in mods {
      assert mods'.Keys == mods.Keys;
      SumPoint(mods.Keys, f, g, x);
    } else {
      assert mods'.Keys - {x} == mods.Keys;
      SumWithout(mods'.Keys, g, x);
      SumSame(mods.Keys, f, g);
    }
  }

  lemma TodoSize(todo: set<Id>, x: Id)
    ensures |todo + {x}| <= |todo| + 1 && (x in todo ==> |todo - {x}| == |todo| - 1)
  {
    if x in todo {
      assert todo + {x} == todo;
    }
  }

  ghost predicate Own(e: Event) {
    e.Turn? || e.EndTurn? || e.Checked? || e.Called?
  }

  lemma AwaitedWeighs(d: Module, x: Id, i: nat)
    requires Fits(d)
    ensures Weight(Awaited(d, x, i)) <= Weight(d) + 4
  {
  }

  lemma TurnLess(s: State, x: Id)
    requires AllFit(s) && CanEnableNext(s, x)
    ensures Potential(EnableNext(s, x)) < Potential(s)
  {
    hide Total, Weight, Fits;
    var m := s.mods[x];
    var i, d := m.next, m.deps[m.next];
    var counted := m.(next := i + 1, depCount := m.depCount + 1);
    CountedWeighs(m, i);
    if s.Defined(d) {
      PutWeighs(s.mods, x, DefineDep(counted, i));
    } else {
      var mods := s.mods[x := counted];
      var was := if d in mods then mods[d] else BLANK;
      PutWeighs(s.mods, x, counted);
      FitsBlank();
      FitsNext(m, i);
      assert Fits(s.mods[x]);
      assert Fits(was);
      AwaitedWeighs(was, x, i);
      PutWeighs(mods, d, Awaited(was, x, i));
      BlankWeighs();
      assert EnableNext(s, x) == s.(mods := mods[d := Awaited(was, x, i)]);
    }
  }

  lemma BlankWeighs()
    ensures Weight(BLANK) == 0
  {
  }

  lemma CountedWeighs(m: Module, i: nat)
    requires i == m.next < |m.deps|
    ensures Weight(m.(next := i + 1, depCount := m.depCount + 1)) == Weight(m) - 5
    ensures Weight(DefineDep(m.(next := i + 1, depCount := m.depCount + 1), i)) == Weight(m) - 5
  {
  }

  lemma CalledLess(s: State, x: Id)
    requires CanNotify(s, x)
    ensures Potential(Notify(s, x)) < Potential(s)
  {
    hide Total, Weight, DefineDep;
    var m := s.mods[x];
    var p, i := m.listeners[m.notified].0, m.listeners[m.notified].1;
    var m' := m.(notified := m.notified + 1);
    var mods := s.mods[x := m'];
    NotifiedWeighs(m);
    PutWeighs(s.mods, x, m');
    if p in mods {
      MatchWeighs(mods[p], i);
      PutWeighs(mods, p, DefineDep(mods[p], i));
      TodoSize(s.todo, p);
    }
  }

  lemma NotifiedWeighs(m: Module)
    ensures Weight(m.(notified := m.notified + 1)) == Weight(m) - 2
  {
  }

  lemma MatchWeighs(m: Module, i: nat)
    ensures Weight(DefineDep(m, i)) == Weight(m)
  {
  }

  lemma OwnLess(s: State, e: Event)
    requires AllFit(s) && Own(e) && Can(s, e)
    ensures Potential(Step(s, e)) < Potential(s)
  {
    hide Potential, EnableNext, Notify;
    match e
    case Turn(x) => TurnLess(s, x);
    case EndTurn(x) => EndTurnLess(s, x);
    case Checked(x) => CheckedLess(s, x);
    case Called(x) => CalledLess(s, x);
    case _ =>
  }

  lemma EndTurnLess(s: State, x: Id)
    requires CanEnableEnd(s, x)
    ensures Potential(EnableEnd(s, x)) < Potential(s)
  {
    hide Total;
    PutWeighs(s.mods, x, s.mods[x].(enabling := false));
    TodoSize(s.todo, x);
  }

  lemma CheckedLess(s: State, x: Id)
    requires CanCheck(s, x)
    ensures Potential(Check(s, x)) < Potential(s)
  {
    hide Total;
    var m := s.mods[x];
    TodoSize(s.todo, x);
    PutWeighs(s.mods, x, m.(fetched := true));
    PutWeighs(s.mods, x, m.(defined := true, runs := m.runs + 1));
  }

  lemma PotentialPositive(s: State)
    requires AllFit(s)
    ensures Potential(s) >= 0
  {
    SumPositive(s.mods.Keys, Weights(s.mods));
  }

  // ---------- what the own steps leave as it is ----------

  /** The modules know their dependencies, and nothing is being enabled: all scripts that were asked for have arrived. */
  ghost predicate Steady(s: State) {
    forall x :: x in s.mods ==> !s.mods[x].enabling && (s.mods[x].enabled ==> s.mods[x].inited)
  }

  /** m' is m some steps later. */
  ghost predicate Later(m: Module, m': Module) {
    && (m.enabled ==> m'.enabled) && (m.inited ==> m'.inited && m'.deps == m.deps) && (m.defined ==> m'.defined) && m.matched <= m'.matched
  }

  ghost predicate Onward(s: State, s': State) {
    && s.forced <= s'.forced && s'.required == s.required && s.mods.Keys <= s'.mods.Keys
    && forall x :: x in s.mods ==> Later(s.mods[x], s'.mods[x])
  }

  /** In a steady state no module is added or enabled. */
  ghost predicate Stays(s: State, s': State) {
    s'.mods.Keys == s.mods.Keys && forall x :: x in s.mods ==> s'.mods[x].deps == s.mods[x].deps && s'.mods[x].enabled == s.mods[x].enabled
  }

  lemma PutOnward(s: State, s': State, x: Id, m: Module)
    requires s'.mods == s.mods[x := m] && s.forced <= s'.forced && s'.required == s.required && (x in s.mods ==> Later(s.mods[x], m))
    ensures Onward(s, s')
  {
  }

  lemma PutStays(s: State, s': State, x: Id, m: Module)
    requires Steady(s) && s'.mods == s.mods[x := m] && x in s.mods
    requires m.deps == s.mods[x].deps && m.enabled == s.mods[x].enabled && m.inited == s.mods[x].inited && m.enabling == s.mods[x].enabling
    ensures Steady(s') && Stays(s, s')
  {
  }

  lemma TurnOnward(s: State, x: Id)
    requires CanEnableNext(s, x)
    ensures Onward(s, EnableNext(s, x)) && EnableNext(s, x).forced == s.forced
  {
    hide Onward;
    var m := s.mods[x];
    var i, d := m.next, m.deps[m.next];
    var counted := m.(next := i + 1, depCount := m.depCount + 1);
    if s.Defined(d) {
      PutOnward(s, EnableNext(s, x), x, DefineDep(counted, i));
    } else {
      var t := s.(mods := s.mods[x := counted]);
      var dep := Awaited(if d in t.mods then t.mods[d] else BLANK, x, i);
      PutOnward(s, t, x, counted);
      assert EnableNext(s, x) == t.(mods := t.mods[d := dep]);
      PutOnward(t, EnableNext(s, x), d, dep);
      OnwardOn(s, t, EnableNext(s, x));
    }
  }

  lemma CalledOnward(s: State, x: Id)
    requires CanNotify(s, x)
    ensures Onward(s, Notify(s, x)) && Notify(s, x).forced == s.forced
    ensures Steady(s) ==> Steady(Notify(s, x)) && Stays(s, Notify(s, x))
  {
    hide Onward, Stays, Steady;
    var m := s.mods[x];
    var p, i := m.listeners[m.notified].0, m.listeners[m.notified].1;
    var t := s.(mods := s.mods[x := m.(notified := m.notified + 1)]);
    PutOnward(s, t, x, t.mods[x]);
    if p in t.mods {
      PutOnward(t, Notify(s, x), p, DefineDep(t.mods[p], i));
      OnwardOn(s, t, Notify(s, x));
    } else {
      assert Notify(s, x) == t;
    }
    if Steady(s) {
      PutStays(s, t, x, t.mods[x]);
      if p in t.mods {
        PutStays(t, Notify(s, x), p, DefineDep(t.mods[p], i));
        StaysOn(s, t, Notify(s, x));
      }
    }
  }

  lemma CheckedOnward(s: State, x: Id)
    requires CanCheck(s, x)
    ensures Onward(s, Check(s, x)) && Check(s, x).forced == s.forced
    ensures Steady(s) ==> Steady(Check(s, x)) && Stays(s, Check(s, x))
  {
    hide Onward, Stays, Steady;
    var s' := Check(s, x);
    PutOnward(s, s', x, s'.mods[x]);
    if Steady(s) {
      PutStays(s, s', x, s'.mods[x]);
    }
  }

  lemma OwnOnward(s: State, e: Event)
    requires Own(e) && Can(s, e)
    ensures Onward(s, Step(s, e)) && Step(s, e).forced == s.forced
  {
    hide Onward, EnableNext, Check, Notify;
    match e
    case Turn(x) => TurnOnward(s, x);
    case EndTurn(x) => PutOnward(s, EnableEnd(s, x), x, s.mods[x].(enabling := false));
    case Checked(x) => CheckedOnward(s, x);
    case Called(x) => CalledOnward(s, x);
    case _ =>
  }

  lemma OwnStays(s: State, e: Event)
    requires Steady(s) && Own(e) && Can(s, e)
    ensures Steady(Step(s, e)) && Stays(s, Step(s, e))
  {
    hide Stays, EnableNext, Check, Notify;
    match e
    case Checked(x) => CheckedOnward(s, x);
    case Called(x) => CalledOnward(s, x);
    case _ =>
  }

  lemma OnwardOn(s: State, t: State, u: State)
    requires Onward(s, t) && Onward(t, u)
    ensures Onward(s, u)
  {
    forall x | x in s.mods ensures Later(s.mods[x], u.mods[x]) {
      assert Later(s.mods[x], t.mods[x]) && Later(t.mods[x], u.mods[x]);
    }
  }

  lemma StaysOn(s: State, t: State, u: State)
    requires Stays(s, t) && Stays(t, u)
    ensures Stays(s, u)
  {
  }

  ghost predicate Settled(s: State) {
    Inv(s) && Quiet(s)
  }

  /** Some step of the loader itself that can be taken, if there is one. */
  method NextStep(s: State) returns (e: Option<Event>)
    ensures e.Some? ==> Own(e.value) && Can(s, e.value)
    ensures e.None? && Scoped(s) ==> Quiet(s)
  {
    if x :| x in s.mods && CanEnableNext(s, x) {
      e := Some(Turn(x));
    } else if x :| x in s.mods && CanEnableEnd(s, x) {
      e := Some(EndTurn(x));
    } else if x :| x in s.mods && CanCheck(s, x) {
      e := Some(Checked(x));
    } else if x :| x in s.mods && CanNotify(s, x) {
      e := Some(Called(x));
    } else {
      e := None;
    }
  }

  /** The loader goes on until nothing is left to do. */
  method Settle(s: State) returns (s': State)
    requires Inv(s)
    ensures Settled(s') && Onward(s, s') && s'.forced == s.forced
    ensures Steady(s) ==> Steady(s') && Stays(s, s')
  {
    hide Quiet, Onward, Stays, Steady, Can, Step, Own, Potential, Almost;
    s' := s;
    InvParts(s');
    OnwardSelf(s);
    var e := NextStep(s');
    while e.Some?
      invariant Inv(s') && AllFit(s') && Scoped(s') && Onward(s, s') && s'.forced == s.forced
      invariant Steady(s) ==> Steady(s') && Stays(s, s')
      invariant e.Some? ==> Own(e.value) && Can(s', e.value)
      invariant e.None? ==> Quiet(s')
      decreases Potential(s') + if e.Some? then 1 else 0
    {
      ghost var was := s';
      OwnLess(was, e.value);
      OwnOnward(was, e.value);
      StepKeeps(was, e.value);
      s' := Step(s', e.value);
      InvParts(s');
      OnwardOn(s, was, s');
      if Steady(s) {
        OwnStays(was, e.value);
        StaysOn(s, was, s');
      }
      PotentialPositive(s');
      e := NextStep(s');
    }
  }

  lemma InvParts(s: State)
    requires Inv(s)
    ensures AllFit(s) && Scoped(s)
  {
  }

  lemma OnwardSelf(s: State)
    ensures Onward(s, s) && Stays(s, s)
  {
  }

  // ---------- what is defined when the loader has settled ----------

  /** A module that knows its dependencies has gone through them, and a dependency that is defined is matched. */
  lemma SettledDep(s: State, x: Id, i: nat)
    requires Settled(s) && x in s.mods && s.mods[x].enabled && s.mods[x].inited && i < |s.mods[x].deps|
    ensures s.mods[x].deps[i] in s.mods && s.mods[s.mods[x].deps[i]].enabled && i < s.mods[x].next
    ensures s.Defined(s.mods[x].deps[i]) ==> i in s.mods[x].matched
    ensures i in s.mods[x].matched ==> s.Defined(s.mods[x].deps[i]) || (x, i) in s.forced
  {
    assert Fits(s.mods[x]);
    assert !CanEnableNext(s, x) && !CanEnableEnd(s, x);
    assert Linked(s, x, i);
    var d := s.mods[x].deps[i];
    assert Fits(s.mods[d]);
    assert !CanNotify(s, d);
  }

  lemma {:induction false} AllIn(m: set<nat>, n: nat)
    requires forall i: nat :: i < n ==> i in m
    ensures |m| >= n
  {
    assert Range(n) <= m;
    SubsetSize(Range(n), m);
  }

  lemma SubsetSize(a: set<nat>, b: set<nat>)
    requires a <= b
    ensures |a| <= |b|
  {
    assert b == a + (b - a);
  }

  /** A module all of whose dependencies are matched is defined. */
  lemma SettledDefined(s: State, x: Id)
    requires Settled(s) && x in s.mods && s.mods[x].enabled && s.mods[x].inited
    requires forall i: nat :: i < |s.mods[x].deps| ==> i in s.mods[x].matched
    ensures s.Defined(x)
  {
    hide Linked, Listens, Logged;
    assert Fits(s.mods[x]);
    assert !CanEnableNext(s, x) && !CanEnableEnd(s, x) && !CanCheck(s, x);
    AllIn(s.mods[x].matched, |s.mods[x].deps|);
    AllMatched(s.mods[x]);
    assert Due(s, x);
  }

  // ---------- modules that depend on each other ----------

  ghost function Deps(s: State): map<Id, seq<Id>> {
    map x | x in s.mods :: s.mods[x].deps
  }

  ghost predicate DependsAt(g: map<Id, seq<Id>>, x: Id, y: Id) {
    x in g && y in g[x]
  }

  /** p leads from module to dependency. */
  ghost predicate Chain(g: map<Id, seq<Id>>, p: seq<Id>) {
    |p| > 0 && forall k :: 0 <= k < |p| - 1 ==> DependsAt(g, p[k], p[k + 1])
  }

  /** x is y or depends on it, perhaps through other modules. */
  ghost predicate Needs(g: map<Id, seq<Id>>, x: Id, y: Id) {
    exists p :: Chain(g, p) && p[0] == x && p[|p| - 1] == y
  }

  lemma NeedsSelf(g: map<Id, seq<Id>>, x: Id)
    ensures Needs(g, x, x)
  {
    assert Chain(g, [x]);
  }

  lemma NeedsNext(g: map<Id, seq<Id>>, x: Id, y: Id, z: Id)
    requires Needs(g, x, y) && DependsAt(g, y, z)
    ensures Needs(g, x, z)
  {
    var p :| Chain(g, p) && p[0] == x && p[|p| - 1] == y;
    assert Chain(g, p + [z]);
  }

  /** The i-th dependency of x depends on x again. */
  ghost predicate OnCycle(g: map<Id, seq<Id>>, x: Id, i: nat) {
    x in g && i < |g[x]| && Needs(g, g[x][i], x)
  }

  ghost predicate Acyclic(g: map<Id, seq<Id>>) {
    forall x, i: nat :: !OnCycle(g, x, i)
  }

  /** Every dependency that was forced has since been defined. */
  ghost predicate Redeemed(s: State) {
    forall p :: p in s.forced ==> p.0 in s.mods && p.1 < |s.mods[p.0].deps| && s.Defined(s.mods[p.0].deps[p.1])
  }

  /** What a required module needs is enabled, and defined if it is. */
  lemma {:induction false} ChainDefined(s: State, p: seq<Id>)
    requires Settled(s) && Redeemed(s) && Chain(Deps(s), p) && s.Defined(p[0])
    ensures s.Defined(p[|p| - 1])
    decreases |p|
  {
    hide Quiet, Almost;
    if |p| > 1 {
      DefinedDeps(s, p[0]);
      assert DependsAt(Deps(s), p[0], p[1]);
      assert Chain(Deps(s), p[1..]);
      ChainDefined(s, p[1..]);
    }
  }

  lemma DefinedDeps(s: State, x: Id)
    requires Settled(s) && Redeemed(s) && s.Defined(x)
    ensures forall y :: y in s.mods[x].deps ==> s.Defined(y)
  {
    assert Fits(s.mods[x]);
    AllMatched(s.mods[x]);
    forall y | y in s.mods[x].deps ensures s.Defined(y) {
      var i: nat :| i < |s.mods[x].deps| && s.mods[x].deps[i] == y;
      SettledDep(s, x, i);
    }
  }

  // ---------- breaking cycles ----------

  lemma ForceOnward(s: State, x: Id, i: nat)
    requires CanForce(s, x, i)
    ensures Onward(s, Force(s, x, i)) && (Steady(s) ==> Steady(Force(s, x, i)) && Stays(s, Force(s, x, i)))
    ensures Deps(Force(s, x, i)) == Deps(s)
  {
  }

  lemma StaysDeps(s: State, s': State)
    requires Stays(s, s')
    ensures Deps(s') == Deps(s)
  {
  }

  ghost predicate AllDefined(s: State, xs: set<Id>) {
    forall x :: x in xs ==> s.Defined(x)
  }

  /** Those on the stack of the traversal all need x. */
  ghost predicate AllNeed(g: map<Id, seq<Id>>, stack: set<Id>, x: Id) {
    forall y :: y in stack ==> Needs(g, y, x)
  }

  /** What was forced in between lies on a cycle, and its dependency has been visited. */
  ghost predicate ForcedWell(g: map<Id, seq<Id>>, before: set<(Id, nat)>, after: set<(Id, nat)>, traced: set<Id>) {
    forall p :: p in after && p !in before ==> OnCycle(g, p.0, p.1) && g[p.0][p.1] in traced
  }

  lemma ForcedMore(g: map<Id, seq<Id>>, f0: set<(Id, nat)>, f1: set<(Id, nat)>, f2: set<(Id, nat)>, t1: set<Id>, t2: set<Id>)
    requires ForcedWell(g, f0, f1, t1) && ForcedWell(g, f1, f2, t2) && t1 <= t2
    ensures ForcedWell(g, f0, f2, t2)
  {
  }

  ghost predicate MatchedUpto(s: State, x: Id, n: nat) {
    x in s.mods && forall i: nat :: i < n ==> i in s.mods[x].matched
  }

  lemma MatchedOn(s: State, s': State, x: Id, n: nat)
    requires MatchedUpto(s, x, n) && Onward(s, s')
    ensures MatchedUpto(s', x, n)
  {
    assert Later(s.mods[x], s'.mods[x]);
  }

  lemma DefinedOn(s: State, s': State, xs: set<Id>)
    requires AllDefined(s, xs) && Onward(s, s')
    ensures AllDefined(s', xs)
  {
    forall x | x in xs ensures s'.Defined(x) {
      assert Later(s.mods[x], s'.mods[x]);
    }
  }

  /** One dependency is forced, and the loader goes on from there. */
  method ForceOne(s: State, x: Id, i: nat) returns (s': State)
    requires Settled(s) && Steady(s) && CanForce(s, x, i)
    ensures Settled(s') && Steady(s') && Onward(s, s') && Deps(s') == Deps(s) && Stays(s, s')
    ensures s'.forced == s.forced + {(x, i)} && i in s'.mods[x].matched
  {
    hide Quiet, Onward, Stays, Steady, Almost;
    ForceOnward(s, x, i);
    ForceKeeps(s, x, i);
    s' := Settle(Force(s, x, i));
    OnwardOn(s, Force(s, x, i), s');
    StaysOn(s, Force(s, x, i), s');
    StaysDeps(s, s');
    StillMatched(Force(s, x, i), s', x, i);
  }

  lemma StillMatched(s: State, s': State, x: Id, i: nat)
    requires x in s.mods && i in s.mods[x].matched && Onward(s, s')
    ensures x in s'.mods && i in s'.mods[x].matched
  {
    assert Later(s.mods[x], s'.mods[x]);
  }

  /** What the loop over the dependencies of x keeps. */
  ghost predicate Visiting(s: State, s': State, x: Id, n: nat, traced: set<Id>, traced': set<Id>, processed: set<Id>, processed': set<Id>) {
    && Settled(s') && Steady(s') && Onward(s, s') && Stays(s, s') && Deps(s') == Deps(s)
    && traced <= traced' <= s.mods.Keys && processed' <= traced' && traced' - processed' == traced - processed
    && AllDefined(s', processed') && MatchedUpto(s', x, n) && ForcedWell(Deps(s), s.forced, s'.forced, traced')
  }

  /** Going through the dependencies in depth, forcing those that lead back to a module that is being visited. It comes to an end, leaves
      every module that it has processed defined, and forces only dependencies that lie on a cycle. */
  method BreakCycle(s: State, id: Id, traced: set<Id>, processed: set<Id>) returns (s': State, traced': set<Id>, processed': set<Id>)
    requires Settled(s) && Steady(s) && id in s.mods && s.mods[id].enabled && id !in traced
    requires traced <= s.mods.Keys && processed <= traced
    requires AllDefined(s, processed) && AllNeed(Deps(s), traced - processed, id)
    ensures Visiting(s, s', id, 0, traced, traced', processed, processed')
    ensures id in processed' && s'.Defined(id)
    decreases s.mods.Keys - traced
  {
    hide Quiet, Onward, Stays, Steady, Almost, Deps, AllNeed, ForcedWell, MatchedUpto, AllDefined, Settled;
    s', traced', processed' := s, traced + {id}, processed;
    VisitStarts(s, id, traced, processed);
    for i := 0 to |s.mods[id].deps|
      invariant Visiting(s, s', id, i, traced + {id}, traced', processed, processed')
    {
      hide Visiting;
      VisitParts(s, s', id, i, traced + {id}, traced', processed, processed');
      var d := s'.mods[id].deps[i];
      if s'.Waiting(d) && i !in s'.mods[id].matched && d !in processed' {
        if d in traced' {
          var t := ForceOne(s', id, i);
          VisitForced(s, s', t, id, i, traced, traced', processed, processed');
          s' := t;
        } else {
          VisitDeeper(s, s', id, i, traced, traced', processed, processed');
          var t, traced2, processed2 := BreakCycle(s', d, traced', processed');
          VisitReturned(s, s', t, id, i, traced + {id}, traced', processed, processed', traced2, processed2);
          s', traced', processed' := t, traced2, processed2;
        }
      } else {
        VisitSkipped(s, s', id, i, traced + {id}, traced', processed, processed');
      }
    }
    VisitEnds(s, s', id, traced, traced', processed, processed');
    processed' := processed' + {id};
  }

  lemma VisitStarts(s: State, id: Id, traced: set<Id>, processed: set<Id>)
    requires Settled(s) && Steady(s) && id in s.mods && traced <= s.mods.Keys && processed <= traced && AllDefined(s, processed)
    ensures Visiting(s, s, id, 0, traced + {id}, traced + {id}, processed, processed)
  {
    hide Quiet, Almost, Settled;
  }

  lemma VisitParts(s: State, s': State, id: Id, i: nat, traced: set<Id>, traced': set<Id>, processed: set<Id>, processed': set<Id>)
    requires Visiting(s, s', id, i, traced, traced', processed, processed') && id in s.mods && s.mods[id].enabled && i < |s.mods[id].deps|
    ensures Settled(s') && Steady(s') && id in s'.mods && s'.mods[id].deps == s.mods[id].deps && s'.mods[id].enabled && s'.mods[id].inited
    ensures traced' <= s'.mods.Keys && processed' <= traced' && AllDefined(s', processed') && CanForce(s', id, i)
    ensures s'.mods[id].deps[i] in s'.mods && s'.mods[s'.mods[id].deps[i]].enabled && Deps(s') == Deps(s) && s'.mods.Keys == s.mods.Keys
  {
    hide Quiet, Almost, Settled, ForcedWell;
    SettledDep(s', id, i);
  }

  lemma VisitForced(s: State, s': State, t: State, id: Id, i: nat, traced: set<Id>, traced': set<Id>, processed: set<Id>, processed': set<Id>)
    requires Visiting(s, s', id, i, traced + {id}, traced', processed, processed') && id in s.mods && i < |s.mods[id].deps|
    requires AllNeed(Deps(s), traced - processed, id) && s.mods[id].deps[i] in traced' && s.mods[id].deps[i] !in processed'
    requires Settled(t) && Steady(t) && Onward(s', t) && Deps(t) == Deps(s') && Stays(s', t)
    requires t.forced == s'.forced + {(id, i)} && i in t.mods[id].matched
    ensures Visiting(s, t, id, i + 1, traced + {id}, traced', processed, processed')
  {
    hide Quiet, Almost, Settled, Onward, Stays, Steady, Needs, AllDefined;
    OnwardOn(s, s', t);
    StaysOn(s, s', t);
    MatchedOn(s', t, id, i);
    DefinedOn(s', t, processed');
    NeedsSelf(Deps(s), id);
    assert s.mods[id].deps[i] in (traced + {id}) - processed;
    assert Deps(s)[id] == s.mods[id].deps;
    assert OnCycle(Deps(s), id, i);
  }

  lemma VisitDeeper(s: State, s': State, id: Id, i: nat, traced: set<Id>, traced': set<Id>, processed: set<Id>, processed': set<Id>)
    requires Visiting(s, s', id, i, traced + {id}, traced', processed, processed') && id in s.mods && i < |s.mods[id].deps|
    requires AllNeed(Deps(s), traced - processed, id) && id !in traced && processed <= traced
    ensures AllNeed(Deps(s'), traced' - processed', s.mods[id].deps[i]) && traced < traced'
  {
    hide Quiet, Almost, Settled, Onward, Stays, Steady, Needs, AllDefined, ForcedWell, MatchedUpto;
    var d := s.mods[id].deps[i];
    NeedsSelf(Deps(s), id);
    assert DependsAt(Deps(s), id, d);
    forall y | y in traced' - processed' ensures Needs(Deps(s'), y, d) {
      assert y in (traced + {id}) - processed;
      NeedsNext(Deps(s), y, id, d);
    }
    assert id in traced';
  }

  lemma VisitReturned(s: State, s': State, t: State, id: Id, i: nat, traced: set<Id>, traced': set<Id>, processed: set<Id>,
                      processed': set<Id>, traced2: set<Id>, processed2: set<Id>)
    requires Visiting(s, s', id, i, traced, traced', processed, processed') && id in s.mods && s.mods[id].enabled && i < |s.mods[id].deps|
    requires Visiting(s', t, s.mods[id].deps[i], 0, traced', traced2, processed', processed2) && t.Defined(s.mods[id].deps[i])
    ensures Visiting(s, t, id, i + 1, traced, traced2, processed, processed2)
  {
    hide Quiet, Almost, Settled, Onward, Stays, Steady, AllDefined, ForcedWell;
    OnwardOn(s, s', t);
    StaysOn(s, s', t);
    MatchedOn(s', t, id, i);
    ForcedMore(Deps(s), s.forced, s'.forced, t.forced, traced', traced2);
    StaysModule(s, t, id);
    StaysModule(s, s', id);
    SettledDep(t, id, i);
  }

  lemma StaysModule(s: State, t: State, x: Id)
    requires Stays(s, t) && Steady(t) && x in s.mods && s.mods[x].enabled
    ensures t.mods.Keys == s.mods.Keys && x in t.mods && t.mods[x].deps == s.mods[x].deps && t.mods[x].enabled && t.mods[x].inited
  {
  }

  lemma VisitSkipped(s: State, s': State, id: Id, i: nat, traced: set<Id>, traced': set<Id>, processed: set<Id>, processed': set<Id>)
    requires Visiting(s, s', id, i, traced, traced', processed, processed') && id in s.mods && s.mods[id].enabled && i < |s.mods[id].deps|
    requires !s'.Waiting(s.mods[id].deps[i]) || i in s'.mods[id].matched || s.mods[id].deps[i] in processed'
    ensures Visiting(s, s', id, i + 1, traced, traced', processed, processed')
  {
    hide Quiet, Almost, Settled, Onward, Stays, Steady, ForcedWell;
    StaysModule(s, s', id);
    SettledDep(s', id, i);
  }

  lemma OneLess(a: set<Id>, a': set<Id>, b: set<Id>, b': set<Id>, id: Id)
    requires a' - b' == (a + {id}) - b && id !in a && b <= a && a + {id} <= a'
    ensures a' - (b' + {id}) == a - b && id in a'
  {
    assert forall x :: x in a' - (b' + {id}) <==> x in (a + {id}) - b - {id};
  }

  lemma VisitEnds(s: State, s': State, id: Id, traced: set<Id>, traced': set<Id>, processed: set<Id>, processed': set<Id>)
    requires id in s.mods && s.mods[id].enabled && id !in traced && processed <= traced
    requires Visiting(s, s', id, |s.mods[id].deps|, traced + {id}, traced', processed, processed')
    ensures s'.Defined(id) && Visiting(s, s', id, 0, traced, traced', processed, processed' + {id})
  {
    hide Quiet, Almost, Settled, Onward, Stays, Steady, ForcedWell;
    StaysModule(s, s', id);
    SettledDefined(s', id);
    OneLess(traced, traced', processed, processed', id);
  }

  // ---------- the check for cycles ----------

  /** A script that was asked for has not arrived yet. */
  predicate Loading(s: State, x: Id) {
    x in s.mods && !s.mods[x].defined && s.mods[x].enabled && !s.mods[x].inited && s.mods[x].fetched && x !in s.required
  }

  lemma SettledSteady(s: State)
    requires Settled(s) && forall x :: x in s.mods ==> !Loading(s, x)
    ensures Steady(s)
  {
    hide Linked, Listens, Logged;
    forall x | x in s.mods ensures !s.mods[x].enabling && (s.mods[x].enabled ==> s.mods[x].inited) {
      assert Fits(s.mods[x]) && Due(s, x) && !Loading(s, x);
      assert !CanEnableNext(s, x) && !CanEnableEnd(s, x) && !CanCheck(s, x);
    }
  }

  ghost predicate Cyclic(g: map<Id, seq<Id>>, before: set<(Id, nat)>, after: set<(Id, nat)>) {
    forall p :: p in after && p !in before ==> OnCycle(g, p.0, p.1)
  }

  /** Between two calls of BreakCycle nothing is on the stack, so all that was visited is processed, and what was forced is redeemed. */
  lemma NowRedeemed(s: State, t: State, id: Id, traced: set<Id>, processed: set<Id>)
    requires Redeemed(s) && Visiting(s, t, id, 0, {}, traced, {}, processed)
    ensures Redeemed(t) && Cyclic(Deps(s), s.forced, t.forced)
  {
    hide Settled, Steady, Needs;
    assert traced <= processed by {
      forall x | x in traced ensures x in processed {
        assert x in processed || x in traced - processed;
      }
    }
    forall p | p in t.forced ensures p.0 in t.mods && p.1 < |t.mods[p.0].deps| && t.Defined(t.mods[p.0].deps[p.1]) {
      if p in s.forced {
        assert Later(s.mods[s.mods[p.0].deps[p.1]], t.mods[s.mods[p.0].deps[p.1]]);
      } else {
        assert OnCycle(Deps(s), p.0, p.1);
        assert Deps(t)[p.0] == t.mods[p.0].deps;
      }
    }
  }

  lemma RequiredDone(s: State, t: State, calls: set<Id>)
    requires Inv(s) && Settled(t) && Redeemed(t) && Onward(s, t) && AllDefined(t, calls)
    requires forall x :: x in s.required && s.Waiting(x) ==> x in calls
    ensures AllLoaded(t)
  {
    hide Settled, Deps, Redeemed;
    forall x, y | x in t.required && Needs(Deps(t), x, y) ensures t.Defined(y) {
      assert x in s.mods;
      assert s.Defined(x) ==> Later(s.mods[x], t.mods[x]);
      var p :| Chain(Deps(t), p) && p[0] == x && p[|p| - 1] == y;
      ChainDefined(t, p);
    }
  }

  lemma RequiredEnabled(s: State)
    requires Inv(s)
    ensures forall x :: x in s.required ==> x in s.mods && s.mods[x].enabled
  {
  }

  lemma CyclicMore(g: map<Id, seq<Id>>, f0: set<(Id, nat)>, f1: set<(Id, nat)>, f2: set<(Id, nat)>)
    requires Cyclic(g, f0, f1) && Cyclic(g, f1, f2)
    ensures Cyclic(g, f0, f2)
  {
  }

  /** All that the required modules need is defined. */
  ghost predicate AllLoaded(s: State) {
    forall x, y :: x in s.required && Needs(Deps(s), x, y) ==> s.Defined(y)
  }

  /** s' is what the check for cycles makes of s: nothing but dependencies on cycles are forced, and they are redeemed; and unless a script
      is still being loaded, all that the required modules need is defined. */
  ghost predicate Unlocked(s: State, s': State) {
    && Settled(s') && Redeemed(s') && Onward(s, s') && Stays(s, s') && Deps(s') == Deps(s) && Cyclic(Deps(s), s.forced, s'.forced)
    && if exists x :: Loading(s, x) then s' == s else AllLoaded(s')
  }

  /** Unless a script is still being loaded, the cycles are broken from every require call that waits. */
  method CheckLoaded(s: State) returns (s': State)
    requires Settled(s) && Redeemed(s)
    ensures Unlocked(s, s')
  {
    hide Quiet, Onward, Stays, Steady, Almost, Deps, AllDefined, Settled, Visiting, Redeemed, Cyclic, Loading, Needs, AllLoaded;
    s' := s;
    OnwardSelf(s);
    assert Cyclic(Deps(s), s.forced, s.forced) by {
      NoneCyclic(s);
    }
    var needCycleCheck := !(exists x :: x in s.mods && Loading(s, x));
    LoadingKnown(s);
    if needCycleCheck {
      SettledSteady(s);
      assert Inv(s) by {
        SettledInv(s);
      }
      RequiredEnabled(s);
      var reqCalls := set x | x in s.mods && x in s.required && s.Waiting(x);
      var calls := Listing(reqCalls);
      ghost var done: set<Id> := {};
      assert AllDefined(s', done) by {
        NoneDefined(s');
      }
      for i := 0 to |calls|
        invariant Settled(s') && Steady(s') && Redeemed(s') && Onward(s, s') && Stays(s, s') && Deps(s') == Deps(s)
        invariant Cyclic(Deps(s), s.forced, s'.forced)
        invariant done == Upto(calls, i) && AllDefined(s', done)
      {
        UptoStep(calls, reqCalls, i);
        var x := calls[i];
        ghost var was := s';
        StaysModule(s, s', x);
        CallStarts(s', x);
        var t, traced, processed := BreakCycle(s', x, {}, {});
        NowRedeemed(was, t, x, traced, processed);
        CallEnds(s, was, t, x, traced, processed, done);
        CyclicMore(Deps(s), s.forced, was.forced, t.forced);
        s' := t;
        done := done + {x};
      }
      UptoEnds(calls, reqCalls);
      RequiredDone(s, s', reqCalls);
    }
  }

  lemma SettledInv(s: State)
    requires Settled(s)
    ensures Inv(s)
  {
  }

  lemma LoadingKnown(s: State)
    ensures forall x :: Loading(s, x) ==> x in s.mods
  {
  }

  lemma NoneCyclic(s: State)
    ensures Cyclic(Deps(s), s.forced, s.forced)
  {
  }

  lemma NoneDefined(s: State)
    ensures AllDefined(s, {})
  {
  }

  lemma CallStarts(s: State, x: Id)
    ensures AllDefined(s, {}) && AllNeed(Deps(s), {} - {}, x)
  {
  }

  lemma CallEnds(s: State, was: State, t: State, x: Id, traced: set<Id>, processed: set<Id>, done: set<Id>)
    requires Onward(s, was) && Stays(s, was) && Deps(was) == Deps(s) && AllDefined(was, done)
    requires Visiting(was, t, x, 0, {}, traced, {}, processed) && t.Defined(x)
    ensures Settled(t) && Steady(t) && Onward(s, t) && Stays(s, t) && Deps(t) == Deps(s) && AllDefined(t, done + {x})
  {
    hide Settled, Steady, Onward, Stays, Deps, ForcedWell;
    OnwardOn(s, was, t);
    StaysOn(s, was, t);
    DefinedOn(was, t, done);
  }

  // ---------- without cycles nothing has to be broken ----------

  ghost predicate Stuck(s: State, x: Id) {
    x in s.mods && s.mods[x].enabled && !s.mods[x].defined
  }

  /** A module that is not defined waits for one that is not defined. */
  lemma StuckNext(s: State, x: Id) returns (i: nat)
    requires Settled(s) && Steady(s) && Stuck(s, x)
    ensures i < |s.mods[x].deps| && Stuck(s, s.mods[x].deps[i])
  {
    hide Quiet, Almost;
    assert exists i: nat :: i < |s.mods[x].deps| && i !in s.mods[x].matched by {
      if forall i: nat :: i < |s.mods[x].deps| ==> i in s.mods[x].matched {
        SettledDefined(s, x);
        assert false;
      }
    }
    i :| i < |s.mods[x].deps| && i !in s.mods[x].matched;
    SettledDep(s, x, i);
  }

  /** Followed for long enough, the modules that wait lead into a cycle. */
  lemma {:induction false} StuckOnCycle(s: State, p: seq<Id>) returns (x: Id, i: nat)
    requires Settled(s) && Steady(s) && Chain(Deps(s), p) && NoDup(p) && forall k :: 0 <= k < |p| ==> Stuck(s, p[k])
    ensures OnCycle(Deps(s), x, i)
    decreases s.mods.Keys - set y | y in p
  {
    hide Settled, Steady, OnCycle;
    x := p[|p| - 1];
    i := StuckNext(s, x);
    var d := s.mods[x].deps[i];
    assert DependsAt(Deps(s), x, d);
    if d in p {
      CycleFound(Deps(s), p, x, i);
    } else {
      var q := p + [d];
      assert d in q && d in s.mods;
      assert (set y | y in q) == (set y | y in p) + {d};
      assert d in s.mods.Keys - set y | y in p;
      x, i := StuckOnCycle(s, q);
    }
  }

  lemma CycleFound(g: map<Id, seq<Id>>, p: seq<Id>, x: Id, i: nat)
    requires Chain(g, p) && x == p[|p| - 1] && x in g && i < |g[x]| && g[x][i] in p
    ensures OnCycle(g, x, i)
  {
    var k :| 0 <= k < |p| && p[k] == g[x][i];
    assert Chain(g, p[k..]);
  }

  /** If all that was asked for has arrived and no module depends on itself, everything that is enabled is defined. */
  lemma AcyclicDefined(s: State)
    requires Settled(s) && Steady(s) && Acyclic(Deps(s))
    ensures forall x :: x in s.mods && s.mods[x].enabled ==> s.Defined(x)
  {
    hide Settled, Steady, OnCycle;
    forall x | x in s.mods && s.mods[x].enabled ensures s.Defined(x) {
      if !s.mods[x].defined {
        assert Chain(Deps(s), [x]);
        var y, i := StuckOnCycle(s, [x]);
      }
    }
  }
}
