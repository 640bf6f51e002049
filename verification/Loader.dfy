/** The module loader as a state machine: modules are enabled, fetched, arrive, count their
    dependencies down, are defined and tell the modules that wait for them. */
module Loaders {
  import opened Base
  import opened Sums

  type Id = string

  /** deps are the dependencies; next of them have been gone through by the enabling loop. depCount counts those gone through but not
      matched. listeners are the callbacks (p, i) of modules p that wait for this one as their i-th dependency; the first `notified`
      of them have been called. runs counts the calls of the factory. */
  datatype Module = Module(deps: seq<Id>, inited: bool, enabled: bool, enabling: bool, next: nat, matched: set<nat>, depCount: int,
                           fetched: bool, defined: bool, runs: nat, listeners: seq<(Id, nat)>, notified: nat)

  const BLANK := Module([], false, false, false, 0, {}, 0, false, false, 0, [], 0)

  /** todo are the modules whose check is due, log the modules in the order in which their factories have run, forced the dependencies
      matched by breaking cycles, and required the modules of require calls. */
  datatype State = State(mods: map<Id, Module>, todo: set<Id>, log: seq<Id>, forced: set<(Id, nat)>, required: set<Id>) {
    predicate Defined(x: Id) {
      x in mods && mods[x].defined
    }

    /** In the registry: modules leave it when they are defined. */
    predicate Waiting(x: Id) {
      x in mods && !mods[x].defined
    }
  }

  // ---------- what the code does ----------

  function GetModule(mods: map<Id, Module>, id: Id): map<Id, Module> {
    if id in mods then mods else mods[id := BLANK]
  }

  function DefineDep(m: Module, i: nat): Module {
    if i in m.matched then m else m.(matched := m.matched + {i}, depCount := m.depCount - 1)
  }

  function Enable(m: Module): Module {
    m.(enabled := true, enabling := true)
  }

  /** One turn of the loop over the dependencies in enable: the dependency is counted, a callback is left with it or, if it is defined
      already, called at once, and the dependency is enabled. */
  function EnableNext(s: State, x: Id): State
    requires x in s.mods && s.mods[x].enabling && s.mods[x].next < |s.mods[x].deps|
  {
    var m := s.mods[x];
    var i, d := m.next, m.deps[m.next];
    var counted := m.(next := i + 1, depCount := m.depCount + 1);
    if s.Defined(d) then s.(mods := s.mods[x := DefineDep(counted, i)])
    else
      var mods := GetModule(s.mods[x := counted], d);
      var dep := mods[d].(listeners := mods[d].listeners + [(x, i)]);
      s.(mods := mods[d := if dep.enabled then dep else Enable(dep)])
  }

  /** The end of enable. */
  function EnableEnd(s: State, x: Id): State
    requires x in s.mods
  {
    s.(mods := s.mods[x := s.mods[x].(enabling := false)], todo := s.todo + {x})
  }

  /** check: a module that has not arrived is fetched; one whose dependencies are all matched is defined, by its factory. */
  function Check(s: State, x: Id): State
    requires x in s.mods
  {
    var m, s' := s.mods[x], s.(todo := s.todo - {x});
    if !m.enabled || m.enabling then s'
    else if !m.inited then s'.(mods := s.mods[x := m.(fetched := true)])
    else if m.depCount < 1 && !m.defined then s'.(mods := s.mods[x := m.(defined := true, runs := m.runs + 1)], log := s.log + [x])
    else s'
  }

  /** One callback of emit: the dependency is matched in the module that waited for it, and that module is to be checked. */
  function Notify(s: State, x: Id): State
    requires x in s.mods && s.mods[x].notified < |s.mods[x].listeners|
  {
    var m := s.mods[x];
    var p, i := m.listeners[m.notified].0, m.listeners[m.notified].1;
    var mods := s.mods[x := m.(notified := m.notified + 1)];
    if p in mods then s.(mods := mods[p := DefineDep(mods[p], i)], todo := s.todo + {p}) else s.(mods := mods)
  }

  /** A script with the module x arrives: callGetModule and init. */
  function Arrive(s: State, x: Id, deps: seq<Id>): State {
    if s.Defined(x) then s
    else
      var mods := GetModule(s.mods, x);
      if mods[x].inited then s.(mods := mods)
      else
        var m := mods[x].(deps := deps, inited := true);
        if m.enabled then s.(mods := mods[x := Enable(m)]) else s.(mods := mods[x := m], todo := s.todo + {x})
  }

  /** A require call, under a new internal name: init with the module enabled. */
  function Require(s: State, x: Id, deps: seq<Id>): State {
    s.(mods := s.mods[x := Enable(BLANK.(deps := deps, inited := true))], required := s.required + {x})
  }

  /** Breaking a cycle: the i-th dependency of x counts as matched although it is not defined. */
  function Force(s: State, x: Id, i: nat): State
    requires x in s.mods
  {
    s.(mods := s.mods[x := DefineDep(s.mods[x], i)], todo := s.todo + {x}, forced := s.forced + {(x, i)})
  }

  // ---------- the steps ----------

  predicate CanEnableNext(s: State, x: Id) {
    x in s.mods && s.mods[x].enabling && s.mods[x].next < |s.mods[x].deps|
  }

  predicate CanEnableEnd(s: State, x: Id) {
    x in s.mods && s.mods[x].enabling && s.mods[x].next >= |s.mods[x].deps|
  }

  predicate CanCheck(s: State, x: Id) {
    x in s.mods && x in s.todo
  }

  predicate CanNotify(s: State, x: Id) {
    x in s.mods && s.mods[x].defined && s.mods[x].notified < |s.mods[x].listeners|
  }

  predicate CanRequire(s: State, x: Id) {
    x !in s.mods
  }

  predicate CanForce(s: State, x: Id, i: nat) {
    x in s.mods && i < s.mods[x].next && i < |s.mods[x].deps|
  }

  /** What can happen. The first four are the loader's own doing: in the code they come in the order of its nested calls; here they may
      come in any order. Scripts arrive, and require is called, at any time. */
  datatype Event = Turn(x: Id) | EndTurn(x: Id) | Checked(x: Id) | Called(x: Id)
    | Arrived(x: Id, deps: seq<Id>) | Required(x: Id, deps: seq<Id>) | Forced(x: Id, i: nat)

  predicate Can(s: State, e: Event) {
    match e
    case Turn(x) => CanEnableNext(s, x)
    case EndTurn(x) => CanEnableEnd(s, x)
    case Checked(x) => CanCheck(s, x)
    case Called(x) => CanNotify(s, x)
    case Arrived(x, deps) => true
    case Required(x, deps) => CanRequire(s, x)
    case Forced(x, i) => CanForce(s, x, i)
  }

  function Step(s: State, e: Event): State
    requires Can(s, e)
  {
    match e
    case Turn(x) => EnableNext(s, x)
    case EndTurn(x) => EnableEnd(s, x)
    case Checked(x) => Check(s, x)
    case Called(x) => Notify(s, x)
    case Arrived(x, deps) => Arrive(s, x, deps)
    case Required(x, deps) => Require(s, x, deps)
    case Forced(x, i) => Force(s, x, i)
  }

  const INIT := State(map[], {}, [], {}, {})

  /** Where a run leads, if it is possible. */
  ghost function After(events: seq<Event>): Option<State> {
    if events == [] then Some(INIT)
    else
      var r, e := After(events[..|events| - 1]), events[|events| - 1];
      if r.Some? && Can(r.value, e) then Some(Step(r.value, e)) else None
  }

  /** Nothing is left to do until something arrives. */
  ghost predicate Quiet(s: State) {
    forall x :: !CanEnableNext(s, x) && !CanEnableEnd(s, x) && !CanCheck(s, x) && !CanNotify(s, x)
  }

  // ---------- invariants ----------

  /** The fields of one module fit together; depCount is the number of dependencies counted and not matched. */
  ghost predicate Fits(m: Module) {
    && m.next <= |m.deps| && (forall i :: i in m.matched ==> i < m.next) && m.depCount == m.next - |m.matched|
    && (!m.inited ==> m.deps == []) && (!m.enabled ==> m.next == 0 && !m.enabling)
    && (m.enabled && m.inited && !m.enabling ==> m.next == |m.deps|)
    && m.runs == (if m.defined then 1 else 0)
    && (m.defined ==> m.inited && m.enabled && !m.enabling && m.depCount == 0)
    && (!m.defined ==> m.notified == 0) && m.notified <= |m.listeners|
  }

  /** A callback of (x, i) is still to be called by the dependency. */
  ghost predicate Registered(d: Module, x: Id, i: nat) {
    exists k :: d.notified <= k < |d.listeners| && d.listeners[k] == (x, i)
  }

  /** A dependency that has been gone through is enabled; it is defined or forced if matched, and has the callback if not. */
  ghost predicate Linked(s: State, x: Id, i: nat) {
    x in s.mods && i < s.mods[x].next && i < |s.mods[x].deps| ==>
      var d := s.mods[x].deps[i];
      && d in s.mods && s.mods[d].enabled
      && (i in s.mods[x].matched ==> s.mods[d].defined || (x, i) in s.forced)
      && (i !in s.mods[x].matched ==> Registered(s.mods[d], x, i))
  }

  /** Each callback belongs to a dependency of a module. */
  ghost predicate Listens(s: State, d: Id, k: nat) {
    d in s.mods && k < |s.mods[d].listeners| ==>
      var p, i := s.mods[d].listeners[k].0, s.mods[d].listeners[k].1;
      p in s.mods && i < s.mods[p].next && i < |s.mods[p].deps| && s.mods[p].deps[i] == d
  }

  /** A module that could be fetched or defined is to be checked. */
  ghost predicate Due(s: State, x: Id) {
    x in s.mods && s.mods[x].enabled && !s.mods[x].enabling ==>
      var m := s.mods[x];
      (!m.inited && !m.fetched ==> x in s.todo) && (m.inited && m.depCount == 0 && !m.defined ==> x in s.todo)
  }

  /** Each factory has run once at most, after those of all dependencies that were not forced. */
  ghost predicate Logged(s: State) {
    && NoDup(s.log) && (forall x :: x in s.log <==> s.Defined(x))
    && forall k, i :: 0 <= k < |s.log| && s.log[k] in s.mods && 0 <= i < |s.mods[s.log[k]].deps| ==>
         s.mods[s.log[k]].deps[i] in s.log[..k] || (s.log[k], i) in s.forced
  }

  ghost predicate AllFit(s: State) {
    forall x :: x in s.mods ==> Fits(s.mods[x])
  }

  /** All dependencies but those in e are as they should be. */
  ghost predicate AllLinked(s: State, e: set<(Id, nat)>) {
    forall x, i: nat :: (x, i) !in e ==> Linked(s, x, i)
  }

  ghost predicate AllListen(s: State) {
    forall d, k: nat :: Listens(s, d, k)
  }

  ghost predicate AllDue(s: State) {
    forall x :: Due(s, x)
  }

  ghost predicate Scoped(s: State) {
    (forall x :: x in s.todo ==> x in s.mods) && forall x :: x in s.required ==> x in s.mods && s.mods[x].enabled && s.mods[x].inited
  }

  /** The invariants, but for the dependencies in e. */
  ghost predicate Almost(s: State, e: set<(Id, nat)>) {
    AllFit(s) && AllLinked(s, e) && AllListen(s) && AllDue(s) && Logged(s) && Scoped(s)
  }

  ghost predicate Inv(s: State) {
    Almost(s, {})
  }

  // ---------- every step keeps the invariants ----------

  lemma {:induction false} Counted(s: set<nat>, n: nat)
    requires forall i :: i in s ==> i < n
    ensures |s| <= n && (|s| == n ==> forall i: nat :: i < n ==> i in s)
    decreases n
  {
    if n > 0 {
      var r := s - {n - 1};
      assert n - 1 !in s ==> r == s;
      Counted(r, n - 1);
      if |s| == n {
        assert n - 1 in s;
        forall i: nat | i < n ensures i in s {
          assert i < n - 1 ==> i in r;
        }
      }
    } else {
      assert s == {};
    }
  }

  /** A module whose count is at zero has all its dependencies matched. */
  lemma AllMatched(m: Module)
    requires Fits(m)
    ensures m.depCount >= 0 && (m.depCount == 0 ==> forall i: nat :: i < m.next ==> i in m.matched)
    ensures m.defined ==> forall i: nat :: i < |m.deps| ==> i in m.matched
  {
    Counted(m.matched, m.next);
  }

  lemma FitsNext(m: Module, i: nat)
    requires Fits(m) && m.enabling && m.next < |m.deps| && i == m.next
    ensures Fits(m.(next := i + 1, depCount := m.depCount + 1)) && Fits(DefineDep(m.(next := i + 1, depCount := m.depCount + 1), i))
  {
  }

  lemma FitsMatch(m: Module, i: nat)
    requires Fits(m) && i < m.next
    ensures Fits(DefineDep(m, i))
  {
    AllMatched(m);
  }

  /** Whatever (y, j) waited for in m, it waits for in m'. */
  ghost predicate Keeps(m: Module, m': Module, y: Id, j: nat) {
    Registered(m, y, j) ==> Registered(m', y, j)
  }

  /** m' can take the place of m. */
  ghost predicate Extends(m: Module, m': Module) {
    && (m.enabled ==> m'.enabled) && (m.inited ==> m'.inited) && (m.defined ==> m'.defined)
    && m.next <= m'.next && m.next <= |m.deps| && m.next <= |m'.deps| && (forall i: nat :: i < m.next ==> m'.deps[i] == m.deps[i])
    && m.listeners <= m'.listeners
  }

  lemma OthersLinked(s: State, s': State, x: Id, m: Module, y: Id, j: nat)
    requires Linked(s, y, j) && y != x && s'.mods == s.mods[x := m] && s.forced <= s'.forced
    requires x in s.mods ==> Extends(s.mods[x], m) && Keeps(s.mods[x], m, y, j)
    ensures Linked(s', y, j)
  {
    hide Registered;
  }

  lemma OthersListen(s: State, s': State, x: Id, m: Module, d: Id, k: nat)
    requires Listens(s, d, k) && s'.mods == s.mods[x := m]
    requires d == x ==> x in s.mods && k < |s.mods[x].listeners|
    requires x in s.mods ==> Extends(s.mods[x], m)
    ensures Listens(s', d, k)
  {
    if d == x {
      assert m.listeners[k] == s.mods[x].listeners[k];
    }
  }

  lemma OthersDue(s: State, s': State, x: Id, m: Module, y: Id)
    requires Due(s, y) && y != x && s'.mods == s.mods[x := m] && s.todo - {x} <= s'.todo
    ensures Due(s', y)
  {
  }

  lemma LogStays(s: State, s': State, x: Id, m: Module)
    requires Logged(s) && s'.mods == s.mods[x := m] && s'.log == s.log && s.forced <= s'.forced
    requires if x in s.mods then m.defined == s.mods[x].defined && (m.defined ==> m.deps == s.mods[x].deps) else !m.defined
    ensures Logged(s')
  {
    forall k | 0 <= k < |s.log| ensures s.Defined(s.log[k]) {
      assert s.log[k] in s.log;
    }
  }

  /** What has to be shown of the module that changes. */
  ghost predicate Fresh(s: State, s': State, x: Id, m: Module, e': set<(Id, nat)>) {
    && Fits(m) && Due(s', x) && (forall i: nat :: (x, i) !in e' ==> Linked(s', x, i))
    && (forall k: nat :: k < |m.listeners| && (x in s.mods ==> k >= |s.mods[x].listeners|) ==> Listens(s', x, k))
    && (x in s'.required ==> m.enabled && m.inited)
  }

  /** What is lost to the other modules. */
  ghost predicate Harmless(s: State, s': State, x: Id, m: Module, e: set<(Id, nat)>, e': set<(Id, nat)>) {
    && (x in s.mods ==> Extends(s.mods[x], m) && forall y, j: nat :: y != x && (y, j) !in e' ==> Keeps(s.mods[x], m, y, j))
    && (forall p :: p in e && p !in e' ==> p.0 == x || Linked(s', p.0, p.1))
    && s.forced <= s'.forced && s.todo - {x} <= s'.todo <= s.todo + {x} && s.required <= s'.required <= s.required + {x}
  }

  /** One module changes: everything but its own part is kept. */
  lemma PutKeeps(s: State, s': State, x: Id, m: Module, e: set<(Id, nat)>, e': set<(Id, nat)>)
    requires Almost(s, e) && s'.mods == s.mods[x := m]
    requires Fresh(s, s', x, m, e') && Harmless(s, s', x, m, e, e') && Logged(s')
    ensures Almost(s', e')
  {
    hide Linked, Listens, Due, Logged, Fits, Extends, Keeps;
    forall y, j: nat | (y, j) !in e' ensures Linked(s', y, j) {
      if y != x && (y, j) !in e {
        OthersLinked(s, s', x, m, y, j);
      }
    }
    forall d, k: nat ensures Listens(s', d, k) {
      if d != x || (x in s.mods && k < |s.mods[x].listeners|) {
        OthersListen(s, s', x, m, d, k);
      } else if k >= |m.listeners| {
        NoListener(s', d, k);
      }
    }
    forall y ensures Due(s', y) {
      if y != x {
        OthersDue(s, s', x, m, y);
      }
    }
    ScopeStays(s, s', x, m);
  }

  lemma ScopeStays(s: State, s': State, x: Id, m: Module)
    requires Scoped(s) && s'.mods == s.mods[x := m] && (x in s'.required ==> m.enabled && m.inited)
    requires s'.todo <= s.todo + {x} && s'.required <= s.required + {x}
    ensures Scoped(s')
  {
  }

  lemma NoListener(s: State, d: Id, k: nat)
    requires d in s.mods && k >= |s.mods[d].listeners|
    ensures Listens(s, d, k)
  {
  }

  /** Nothing a module waits for is lost when listeners are only added. */
  lemma StillKept(m: Module, m': Module, y: Id, j: nat)
    requires m.listeners <= m'.listeners && m'.notified == m.notified
    ensures Keeps(m, m', y, j)
  {
    if Registered(m, y, j) {
      var k :| m.notified <= k < |m.listeners| && m.listeners[k] == (y, j);
      assert m'.listeners[k] == (y, j);
    }
  }

  /** A dependency that the module itself already had. */
  lemma OwnLinked(s: State, s': State, x: Id, m: Module, j: nat)
    requires Linked(s, x, j) && x in s.mods && s'.mods == s.mods[x := m] && s.forced <= s'.forced
    requires j < s.mods[x].next && Extends(s.mods[x], m) && Keeps(s.mods[x], m, x, j)
    requires j in m.matched ==> j in s.mods[x].matched || (x, j) in s'.forced
    requires j !in m.matched ==> j !in s.mods[x].matched
    ensures Linked(s', x, j)
  {
    hide Registered;
  }

  /** One module changes, and what waits for it stays. */
  lemma PutOwn(s: State, s': State, x: Id, m: Module, e: set<(Id, nat)>, e': set<(Id, nat)>)
    requires Almost(s, e) && x in s.mods && s'.mods == s.mods[x := m] && Extends(s.mods[x], m)
    requires m.listeners == s.mods[x].listeners && m.notified == s.mods[x].notified
    requires Fits(m) && Due(s', x) && forall i: nat :: (x, i) !in e' ==> Linked(s', x, i)
    requires forall p :: p in e && p !in e' ==> p.0 == x
    requires s.forced <= s'.forced && s.todo - {x} <= s'.todo <= s.todo + {x} && s.required == s'.required && Logged(s')
    ensures Almost(s', e')
  {
    hide Linked, Listens, Due, Logged, Fits, Keeps;
    forall y, j: nat ensures Keeps(s.mods[x], m, y, j) {
      StillKept(s.mods[x], m, y, j);
    }
    PutKeeps(s, s', x, m, e, e');
  }

  lemma NotYet(s: State, x: Id, i: nat)
    requires x in s.mods && i >= s.mods[x].next
    ensures Linked(s, x, i)
  {
  }

  /** The dependency is defined already. */
  lemma EnableDefined(s: State, x: Id)
    requires Inv(s) && CanEnableNext(s, x) && s.Defined(s.mods[x].deps[s.mods[x].next])
    ensures Inv(EnableNext(s, x))
  {
    hide Linked, Listens, Due, Logged, Keeps, Registered;
    var s' := EnableNext(s, x);
    var m, m' := s.mods[x], s'.mods[x];
    FitsNext(m, m.next);
    assert Extends(m, m');
    forall j: nat ensures Linked(s', x, j) {
      if j < m.next {
        StillKept(m, m', x, j);
        OwnLinked(s, s', x, m', j);
      } else if j > m.next {
        NotYet(s', x, j);
      } else {
        NextLinked(s, x);
      }
    }
    Enabling(s', x);
    LogStays(s, s', x, m');
    PutOwn(s, s', x, m', {}, {});
  }

  lemma NextLinked(s: State, x: Id)
    requires AllFit(s) && CanEnableNext(s, x) && s.Defined(s.mods[x].deps[s.mods[x].next])
    ensures Linked(EnableNext(s, x), x, s.mods[x].next)
  {
    hide Registered;
  }

  lemma Enabling(s: State, x: Id)
    requires x in s.mods && (s.mods[x].enabling || !s.mods[x].enabled || x in s.todo)
    ensures Due(s, x)
  {
  }

  /** The dependency is not defined yet; first it is counted. */
  lemma EnableCounted(s: State, s': State, x: Id)
    requires Inv(s) && CanEnableNext(s, x)
    requires s' == s.(mods := s.mods[x := s.mods[x].(next := s.mods[x].next + 1, depCount := s.mods[x].depCount + 1)])
    ensures Almost(s', {(x, s.mods[x].next)})
  {
    hide Linked, Listens, Due, Logged, Keeps, Registered;
    var m, m' := s.mods[x], s'.mods[x];
    var e := {(x, m.next)};
    FitsNext(m, m.next);
    assert Extends(m, m');
    forall j: nat | (x, j) !in e ensures Linked(s', x, j) {
      if j < m.next {
        StillKept(m, m', x, j);
        OwnLinked(s, s', x, m', j);
      } else {
        assert j != m.next;
        NotYet(s', x, j);
      }
    }
    Enabling(s', x);
    LogStays(s, s', x, m');
    PutOwn(s, s', x, m', {}, e);
  }

  /** The dependency with one callback more, and enabled. */
  function Awaited(d: Module, x: Id, i: nat): Module {
    var dep := d.(listeners := d.listeners + [(x, i)]);
    if dep.enabled then dep else Enable(dep)
  }

  lemma FitsAwaited(d: Module, x: Id, i: nat)
    requires Fits(d) && !d.defined
    ensures Fits(Awaited(d, x, i)) && Extends(d, Awaited(d, x, i)) && Registered(Awaited(d, x, i), x, i)
  {
    var d' := Awaited(d, x, i);
    assert d'.listeners[|d.listeners|] == (x, i);
  }

  lemma FitsBlank()
    ensures Fits(BLANK)
  {
  }

  lemma {:induction false} AwaitedLinked(s: State, s': State, d: Id, x: Id, i: nat)
    requires x in s.mods && i < s.mods[x].next <= |s.mods[x].deps| && s.mods[x].deps[i] == d && i !in s.mods[x].matched
    requires s'.mods == s.mods[d := Awaited(if d in s.mods then s.mods[d] else BLANK, x, i)]
    requires Fits(if d in s.mods then s.mods[d] else BLANK) && !s.Defined(d)
    ensures Linked(s', x, i) && Listens(s', d, |s'.mods[d].listeners| - 1)
  {
    FitsAwaited(if d in s.mods then s.mods[d] else BLANK, x, i);
  }

  /** Then the callback is left with it. */
  lemma EnableAwaited(s: State, s': State, d: Id, x: Id, i: nat)
    requires Almost(s, {(x, i)}) && x in s.mods && i < s.mods[x].next && s.mods[x].deps[i] == d && i !in s.mods[x].matched && !s.Defined(d)
    requires s' == s.(mods := s.mods[d := Awaited(if d in s.mods then s.mods[d] else BLANK, x, i)])
    ensures Inv(s')
  {
    hide Linked, Listens, Due, Logged, Keeps, Registered, Extends;
    FitsBlank();
    assert Fits(s.mods[x]);
    var was := if d in s.mods then s.mods[d] else BLANK;
    var m := s'.mods[d];
    FitsAwaited(was, x, i);
    AwaitedDue(s, s', d, x, i);
    AwaitedLinked(s, s', d, x, i);
    if d in s.mods {
      forall y, j: nat ensures Keeps(s.mods[d], m, y, j) {
        StillKept(s.mods[d], m, y, j);
      }
    }
    forall k: nat | k < |m.listeners| && (d in s.mods ==> k >= |s.mods[d].listeners|) ensures Listens(s', d, k) {
      assert k == |m.listeners| - 1;
    }
    forall j: nat ensures Linked(s', d, j) {
      AwaitedOwn(s, s', d, x, i, j);
    }
    LogStays(s, s', d, m);
    PutKeeps(s, s', d, m, {(x, i)}, {});
  }

  lemma AwaitedDue(s: State, s': State, d: Id, x: Id, i: nat)
    requires d in s.mods ==> Due(s, d)
    requires s' == s.(mods := s.mods[d := Awaited(if d in s.mods then s.mods[d] else BLANK, x, i)])
    ensures Due(s', d)
  {
  }

  lemma AwaitedOwn(s: State, s': State, d: Id, x: Id, i: nat, j: nat)
    requires AllLinked(s, {(x, i)}) && Linked(s', x, i)
    requires d in s.mods ==> s.mods[d].next <= |s.mods[d].deps|
    requires s' == s.(mods := s.mods[d := Awaited(if d in s.mods then s.mods[d] else BLANK, x, i)])
    ensures Linked(s', d, j)
  {
    hide Linked, Keeps, Registered;
    if d in s.mods && j < s.mods[d].next && (d, j) != (x, i) {
      StillKept(s.mods[d], s'.mods[d], d, j);
      OwnLinked(s, s', d, s'.mods[d], j);
    } else if (d, j) != (x, i) {
      NotYet(s', d, j);
    }
  }

  lemma AwaitedTurn(s: State, t: State, x: Id, i: nat, d: Id)
    requires CanEnableNext(s, x) && i == s.mods[x].next && d == s.mods[x].deps[i] && !s.Defined(d)
    requires t == s.(mods := s.mods[x := s.mods[x].(next := i + 1, depCount := s.mods[x].depCount + 1)])
    ensures EnableNext(s, x) == t.(mods := t.mods[d := Awaited(if d in t.mods then t.mods[d] else BLANK, x, i)])
  {
  }

  lemma NotMatched(s: State, x: Id)
    requires Inv(s) && CanEnableNext(s, x)
    ensures s.mods[x].next !in s.mods[x].matched
  {
    hide Linked, Listens, Due, Logged;
    assert Fits(s.mods[x]);
  }

  lemma EnableNextKeeps(s: State, x: Id)
    requires Inv(s) && CanEnableNext(s, x)
    ensures Inv(EnableNext(s, x))
  {
    hide Inv, Almost, EnableNext, Awaited;
    var m := s.mods[x];
    var i, d := m.next, m.deps[m.next];
    if s.Defined(d) {
      EnableDefined(s, x);
    } else {
      var s1 := s.(mods := s.mods[x := m.(next := i + 1, depCount := m.depCount + 1)]);
      EnableCounted(s, s1, x);
      AwaitedTurn(s, s1, x, i, d);
      NotMatched(s, x);
      EnableAwaited(s1, EnableNext(s, x), d, x, i);
    }
  }

  // ---------- the other steps ----------

  lemma EnableEndKeeps(s: State, x: Id)
    requires Inv(s) && CanEnableEnd(s, x)
    ensures Inv(EnableEnd(s, x))
  {
    hide Linked, Listens, Due, Logged, Keeps, Registered;
    var s' := EnableEnd(s, x);
    var m, m' := s.mods[x], s'.mods[x];
    OwnStays(s, s', x, m');
    Enabling(s', x);
    LogStays(s, s', x, m');
    PutOwn(s, s', x, m', {}, {});
  }

  /** The module changes, but not its dependencies. */
  lemma OwnStays(s: State, s': State, x: Id, m: Module)
    requires Inv(s) && x in s.mods && s'.mods == s.mods[x := m] && s.forced <= s'.forced
    requires Extends(s.mods[x], m) && m.next == s.mods[x].next && m.matched == s.mods[x].matched
    requires m.listeners == s.mods[x].listeners && m.notified == s.mods[x].notified
    ensures forall i: nat :: Linked(s', x, i)
  {
    hide Linked, Listens, Due, Logged, Keeps, Registered;
    forall i: nat ensures Linked(s', x, i) {
      if i < m.next {
        StillKept(s.mods[x], m, x, i);
        OwnLinked(s, s', x, m, i);
      } else {
        NotYet(s', x, i);
      }
    }
  }

  /** A check that only takes the module off the list. */
  lemma IdleKeeps(s: State, x: Id)
    requires Inv(s) && Due(s.(todo := s.todo - {x}), x)
    ensures Inv(s.(todo := s.todo - {x}))
  {
    hide Registered, Fits;
    var s' := s.(todo := s.todo - {x});
    forall y, j: nat ensures Linked(s', y, j) {
      assert Linked(s, y, j);
    }
    forall d, k: nat ensures Listens(s', d, k) {
      assert Listens(s, d, k);
    }
    forall y ensures Due(s', y) {
      assert Due(s, y);
    }
  }

  lemma FetchKeeps(s: State, x: Id)
    requires Inv(s) && CanCheck(s, x) && s.mods[x].enabled && !s.mods[x].enabling && !s.mods[x].inited
    ensures Inv(Check(s, x))
  {
    hide Linked, Listens, Logged, Keeps, Registered;
    var s' := Check(s, x);
    var m, m' := s.mods[x], s'.mods[x];
    OwnStays(s, s', x, m');
    LogStays(s, s', x, m');
    PutOwn(s, s', x, m', {}, {});
  }

  /** The factory runs: the dependencies are all matched, hence defined or forced, hence in the log. */
  lemma DefineLogs(s: State, x: Id)
    requires Inv(s) && CanCheck(s, x)
    requires s.mods[x].enabled && !s.mods[x].enabling && s.mods[x].inited && s.mods[x].depCount < 1 && !s.mods[x].defined
    ensures Logged(Check(s, x))
  {
    hide Listens, Due, Keeps, Registered;
    var s' := Check(s, x);
    var m := s.mods[x];
    assert x !in s.log;
    AllMatched(m);
    forall i | 0 <= i < |m.deps| ensures m.deps[i] in s.log || (x, i) in s.forced {
      assert Linked(s, x, i);
    }
    forall k, i | 0 <= k < |s'.log| && s'.log[k] in s'.mods && 0 <= i < |s'.mods[s'.log[k]].deps|
      ensures s'.mods[s'.log[k]].deps[i] in s'.log[..k] || (s'.log[k], i) in s'.forced
    {
      if k < |s.log| {
        assert s.log[k] in s.log && s'.log[..k] == s.log[..k];
      } else {
        assert s'.log[..k] == s.log;
      }
    }
  }

  lemma DefineKeeps(s: State, x: Id)
    requires Inv(s) && CanCheck(s, x)
    requires s.mods[x].enabled && !s.mods[x].enabling && s.mods[x].inited && s.mods[x].depCount < 1 && !s.mods[x].defined
    ensures Inv(Check(s, x))
  {
    hide Linked, Listens, Logged, Keeps, Registered;
    var s' := Check(s, x);
    var m' := s'.mods[x];
    AllMatched(s.mods[x]);
    OwnStays(s, s', x, m');
    DefineLogs(s, x);
    PutOwn(s, s', x, m', {}, {});
  }

  lemma CheckKeeps(s: State, x: Id)
    requires Inv(s) && CanCheck(s, x)
    ensures Inv(Check(s, x))
  {
    hide Linked, Listens, Logged, Keeps, Registered;
    var m := s.mods[x];
    if !m.enabled || m.enabling {
      IdleKeeps(s, x);
    } else if !m.inited {
      FetchKeeps(s, x);
    } else if m.depCount < 1 && !m.defined {
      DefineKeeps(s, x);
    } else {
      AllMatched(m);
      IdleKeeps(s, x);
    }
  }

  /** The callback is taken from the list. */
  lemma CallbackTaken(s: State, s': State, x: Id, p: Id, i: nat)
    requires Inv(s) && CanNotify(s, x) && s.mods[x].listeners[s.mods[x].notified] == (p, i)
    requires s' == s.(mods := s.mods[x := s.mods[x].(notified := s.mods[x].notified + 1)])
    ensures Almost(s', {(p, i)})
  {
    hide Linked, Listens, Due, Logged, Keeps, Registered;
    var m, m' := s.mods[x], s'.mods[x];
    forall y, j: nat | (y, j) != (p, i) ensures Keeps(m, m', y, j) {
      TakenKept(m, p, i, y, j);
    }
    forall j: nat | (x, j) != (p, i) ensures Linked(s', x, j) {
      if j < m.next {
        OwnLinked(s, s', x, m', j);
      } else {
        NotYet(s', x, j);
      }
    }
    SameDue(s, s', x);
    LogStays(s, s', x, m');
    PutKeeps(s, s', x, m', {}, {(p, i)});
  }

  lemma TakenKept(m: Module, p: Id, i: nat, y: Id, j: nat)
    requires m.notified < |m.listeners| && m.listeners[m.notified] == (p, i) && (y, j) != (p, i)
    ensures Keeps(m, m.(notified := m.notified + 1), y, j)
  {
    var m' := m.(notified := m.notified + 1);
    if Registered(m, y, j) {
      var k :| m.notified <= k < |m.listeners| && m.listeners[k] == (y, j);
      assert m'.listeners[k] == (y, j);
    }
  }

  lemma SameDue(s: State, s': State, x: Id)
    requires Due(s, x) && x in s.mods && s'.mods == s.mods[x := s.mods[x].(notified := s.mods[x].notified + 1)] && s'.todo == s.todo
    ensures Due(s', x)
  {
  }

  /** Matching the dependency (x, i): it is defined, or forced. */
  lemma MatchKeeps(s: State, s': State, x: Id, i: nat)
    requires Almost(s, {(x, i)}) && x in s.mods && i < s.mods[x].next
    requires s'.mods == s.mods[x := DefineDep(s.mods[x], i)] && s'.todo == s.todo + {x} && s'.log == s.log && s'.required == s.required
    requires s.forced <= s'.forced
    requires s.mods[x].deps[i] in s.mods && s.mods[s.mods[x].deps[i]].enabled
    requires s.Defined(s.mods[x].deps[i]) || (x, i) in s'.forced
    ensures Inv(s')
  {
    hide Linked, Listens, Due, Logged, Keeps, Registered;
    var m, m' := s.mods[x], s'.mods[x];
    AllMatched(m);
    FitsMatch(m, i);
    assert Extends(m, m');
    forall j: nat ensures Linked(s', x, j) {
      if j < m.next && j != i {
        StillKept(m, m', x, j);
        OwnLinked(s, s', x, m', j);
      } else if j != i {
        NotYet(s', x, j);
      } else {
        MatchedLinked(s, s', x, i);
      }
    }
    Enabling(s', x);
    LogStays(s, s', x, m');
    PutOwn(s, s', x, m', {(x, i)}, {});
  }

  lemma MatchedLinked(s: State, s': State, x: Id, i: nat)
    requires x in s.mods && Fits(s.mods[x]) && i < s.mods[x].next && s'.mods == s.mods[x := DefineDep(s.mods[x], i)]
    requires s.mods[x].deps[i] in s.mods && s.mods[s.mods[x].deps[i]].enabled
    requires s.Defined(s.mods[x].deps[i]) || (x, i) in s'.forced
    ensures Linked(s', x, i)
  {
    hide Registered;
  }

  lemma NotifyKeeps(s: State, x: Id)
    requires Inv(s) && CanNotify(s, x)
    ensures Inv(Notify(s, x))
  {
    hide Linked, Due, Logged, Keeps, Registered, Extends;
    var m := s.mods[x];
    var p, i := m.listeners[m.notified].0, m.listeners[m.notified].1;
    assert Listens(s, x, m.notified);
    var s1 := s.(mods := s.mods[x := m.(notified := m.notified + 1)]);
    CallbackTaken(s, s1, x, p, i);
    MatchKeeps(s1, Notify(s, x), p, i);
  }

  lemma ForceKeeps(s: State, x: Id, i: nat)
    requires Inv(s) && CanForce(s, x, i)
    ensures Inv(Force(s, x, i))
  {
    hide Listens, Due, Logged, Keeps, Registered, Extends;
    assert Linked(s, x, i);
    assert Almost(s, {(x, i)});
    MatchKeeps(s, Force(s, x, i), x, i);
  }

  /** A module that has not been gone through is put in. */
  lemma PutNew(s: State, s': State, x: Id, m: Module)
    requires Inv(s) && s'.mods == s.mods[x := m] && s'.log == s.log && s'.forced == s.forced
    requires s.todo <= s'.todo <= s.todo + {x} && s.required <= s'.required <= s.required + {x}
    requires Fits(m) && m.next == 0 && !m.defined && Due(s', x) && (x in s'.required ==> m.enabled && m.inited)
    requires if x in s.mods then Extends(s.mods[x], m) && m.listeners == s.mods[x].listeners && m.notified == s.mods[x].notified else m.listeners == []
    ensures Inv(s')
  {
    hide Linked, Listens, Due, Logged, Keeps, Registered, Extends;
    forall i: nat ensures Linked(s', x, i) {
      NotYet(s', x, i);
    }
    assert x in s.mods ==> !s.mods[x].defined by {
      hide *;
      NotDefined(s, x, m);
    }
    if x in s.mods {
      forall y, j: nat ensures Keeps(s.mods[x], m, y, j) {
        StillKept(s.mods[x], m, y, j);
      }
    }
    LogStays(s, s', x, m);
    PutKeeps(s, s', x, m, {}, {});
  }

  lemma NotDefined(s: State, x: Id, m: Module)
    requires !m.defined && (x in s.mods ==> Extends(s.mods[x], m))
    ensures x in s.mods ==> !s.mods[x].defined
  {
  }

  lemma ArriveKeeps(s: State, x: Id, deps: seq<Id>)
    requires Inv(s)
    ensures Inv(Arrive(s, x, deps))
  {
    hide Linked, Listens, Logged, Keeps, Registered;
    var s' := Arrive(s, x, deps);
    if !s.Defined(x) {
      var was := if x in s.mods then s.mods[x] else BLANK;
      FitsBlank();
      if !was.inited {
        PutNew(s, s', x, s'.mods[x]);
      } else {
        assert s' == s;
      }
    }
  }

  lemma RequireKeeps(s: State, x: Id, deps: seq<Id>)
    requires Inv(s) && CanRequire(s, x)
    ensures Inv(Require(s, x, deps))
  {
    hide Linked, Listens, Logged, Keeps, Registered;
    var s' := Require(s, x, deps);
    PutNew(s, s', x, s'.mods[x]);
  }

  // ---------- every run ----------

  lemma StepKeeps(s: State, e: Event)
    requires Inv(s) && Can(s, e)
    ensures Inv(Step(s, e))
  {
    hide Inv, EnableNext, EnableEnd, Check, Notify, Arrive, Require, Force;
    match e
    case Turn(x) => EnableNextKeeps(s, x);
    case EndTurn(x) => EnableEndKeeps(s, x);
    case Checked(x) => CheckKeeps(s, x);
    case Called(x) => NotifyKeeps(s, x);
    case Arrived(x, deps) => ArriveKeeps(s, x, deps);
    case Required(x, deps) => RequireKeeps(s, x, deps);
    case Forced(x, i) => ForceKeeps(s, x, i);
  }

  lemma {:induction false} RunKeeps(events: seq<Event>)
    requires After(events).Some?
    ensures Inv(After(events).value)
    decreases |events|
  {
    hide Inv, Can, Step;
    if events == [] {
      InitFits();
    } else {
      var n := |events| - 1;
      RunKeeps(events[..n]);
      StepKeeps(After(events[..n]).value, events[n]);
    }
  }

  lemma InitFits()
    ensures Inv(INIT)
  {
  }

  /** The dependencies that have been counted and not matched. */
  ghost function Unmatched(m: Module): set<nat> {
    set i: nat | i < m.next && i !in m.matched
  }

  ghost function Range(n: nat): (r: set<nat>)
    ensures |r| == n && forall i: nat :: i in r <==> i < n
  {
    if n == 0 then {} else Range(n - 1) + {n - 1}
  }

  lemma UnmatchedSize(m: Module)
    requires Fits(m)
    ensures |Unmatched(m)| == m.depCount
  {
    assert m.matched <= Range(m.next) && Unmatched(m) == Range(m.next) - m.matched;
  }

  /** In every run: a factory runs once at most, depCount is the number of counted and unmatched dependencies, and the factories run in
      an order in which every dependency comes first that was not forced. */
  lemma RunSafe(events: seq<Event>, s: State)
    requires After(events) == Some(s)
    ensures NoDup(s.log) && forall x :: x in s.mods ==> s.mods[x].runs <= 1 && (s.mods[x].runs == 1 <==> x in s.log)
    ensures forall x :: x in s.mods ==> s.mods[x].depCount == |Unmatched(s.mods[x])|
    ensures forall x :: x in s.log ==> x in s.mods
    ensures forall k, i :: 0 <= k < |s.log| && 0 <= i < |s.mods[s.log[k]].deps| && (s.log[k], i) !in s.forced ==>
              s.mods[s.log[k]].deps[i] in s.log[..k]
  {
    hide After, Unmatched;
    RunKeeps(events);
    forall x | x in s.mods ensures s.mods[x].depCount == |Unmatched(s.mods[x])| {
      UnmatchedSize(s.mods[x]);
    }
  }
}
