/** Whole runs of the module loader: only what a require call needs is ever enabled, and without cycles all of it is defined as soon as
    all of it has arrived. */
module LoaderRuns {
  import opened Base
  import opened Loaders
  import opened LoaderCycles

  /** Some require call needs x. */
  ghost predicate Needed(s: State, x: Id) {
    exists r :: r in s.required && Needs(Deps(s), r, x)
  }

  ghost predicate Wanted(s: State) {
    forall x :: x in s.mods && s.mods[x].enabled ==> Needed(s, x)
  }

  /** Modules keep the dependencies they have arrived with. */
  ghost predicate Grows(g: map<Id, seq<Id>>, g': map<Id, seq<Id>>) {
    forall x :: x in g ==> x in g' && (g'[x] == g[x] || g[x] == [])
  }

  lemma NeedsGrow(g: map<Id, seq<Id>>, g': map<Id, seq<Id>>, x: Id, y: Id)
    requires Grows(g, g') && Needs(g, x, y)
    ensures Needs(g', x, y)
  {
    var p :| Chain(g, p) && p[0] == x && p[|p| - 1] == y;
    forall k | 0 <= k < |p| - 1 ensures DependsAt(g', p[k], p[k + 1]) {
      assert DependsAt(g, p[k], p[k + 1]);
    }
    assert Chain(g', p);
  }

  lemma NeededGrow(s: State, s': State, x: Id)
    requires Grows(Deps(s), Deps(s')) && s.required <= s'.required && Needed(s, x)
    ensures Needed(s', x)
  {
    hide Needs, Deps;
    var r :| r in s.required && Needs(Deps(s), r, x);
    NeedsGrow(Deps(s), Deps(s'), r, x);
  }

  /** One module changes; if it is enabled by that, it is required or a dependency of an enabled one. */
  lemma PutWanted(s: State, s': State, x: Id, m: Module, cause: Id)
    requires Wanted(s) && s'.mods == s.mods[x := m] && s.required <= s'.required
    requires x in s.mods ==> m.deps == s.mods[x].deps || s.mods[x].deps == []
    requires m.enabled && !(x in s.mods && s.mods[x].enabled) ==>
      x in s'.required || (cause in s.mods && s.mods[cause].enabled && DependsAt(Deps(s), cause, x))
    ensures Wanted(s')
  {
    hide Needed, Needs;
    assert Grows(Deps(s), Deps(s'));
    forall y | y in s'.mods && s'.mods[y].enabled ensures Needed(s', y) {
      hide Deps, Grows;
      if y in s.mods && s.mods[y].enabled {
        NeededGrow(s, s', y);
      } else if y in s'.required {
        RequiredNeeded(s', y);
      } else {
        NeededGrow(s, s', cause);
        NextNeeded(s', cause, y) by {
          DependsGrow(Deps(s), Deps(s'), cause, x);
        }
      }
    }
  }

  lemma DependsGrow(g: map<Id, seq<Id>>, g': map<Id, seq<Id>>, x: Id, y: Id)
    requires Grows(g, g') && DependsAt(g, x, y)
    ensures DependsAt(g', x, y)
  {
  }

  lemma RequiredNeeded(s: State, x: Id)
    requires x in s.required
    ensures Needed(s, x)
  {
    NeedsSelf(Deps(s), x);
  }

  lemma NextNeeded(s: State, x: Id, y: Id)
    requires Needed(s, x) && DependsAt(Deps(s), x, y)
    ensures Needed(s, y)
  {
    hide Needs, Deps;
    var r :| r in s.required && Needs(Deps(s), r, x);
    NeedsNext(Deps(s), r, x, y);
  }

  lemma TurnWanted(s: State, x: Id)
    requires AllFit(s) && Wanted(s) && CanEnableNext(s, x)
    ensures Wanted(EnableNext(s, x))
  {
    hide Wanted, Deps, DependsAt, Awaited;
    var m := s.mods[x];
    var i, d := m.next, m.deps[m.next];
    var counted := m.(next := i + 1, depCount := m.depCount + 1);
    if s.Defined(d) {
      PutWanted(s, EnableNext(s, x), x, DefineDep(counted, i), x);
    } else {
      var t := s.(mods := s.mods[x := counted]);
      PutWanted(s, t, x, counted, x);
      AwaitedTurn(s, t, x, i, d);
      AwaitedWanted(t, EnableNext(s, x), x, i, d);
    }
  }

  lemma AwaitedWanted(t: State, t': State, x: Id, i: nat, d: Id)
    requires Wanted(t) && x in t.mods && t.mods[x].enabled && d in t.mods[x].deps
    requires t' == t.(mods := t.mods[d := Awaited(if d in t.mods then t.mods[d] else BLANK, x, i)])
    ensures Wanted(t')
  {
    hide Wanted, Deps, DependsAt;
    DependsOn(t, x, d);
    PutWanted(t, t', d, t'.mods[d], x);
  }

  lemma DependsOn(s: State, x: Id, d: Id)
    requires x in s.mods && d in s.mods[x].deps
    ensures DependsAt(Deps(s), x, d)
  {
  }

  lemma CalledWanted(s: State, x: Id)
    requires Wanted(s) && CanNotify(s, x)
    ensures Wanted(Notify(s, x))
  {
    hide Wanted;
    var m := s.mods[x];
    var p, i := m.listeners[m.notified].0, m.listeners[m.notified].1;
    var t := s.(mods := s.mods[x := m.(notified := m.notified + 1)]);
    PutWanted(s, t, x, t.mods[x], x);
    if p in t.mods {
      PutWanted(t, Notify(s, x), p, DefineDep(t.mods[p], i), p);
    } else {
      assert Notify(s, x) == t;
    }
  }

  lemma ArrivedWanted(s: State, x: Id, deps: seq<Id>)
    requires AllFit(s) && Wanted(s)
    ensures Wanted(Arrive(s, x, deps))
  {
    hide Wanted;
    var s' := Arrive(s, x, deps);
    if !s.Defined(x) {
      PutWanted(s, s', x, s'.mods[x], x);
    }
  }

  lemma CheckedWanted(s: State, x: Id)
    requires Wanted(s) && CanCheck(s, x)
    ensures Wanted(Check(s, x))
  {
    hide Wanted;
    PutWanted(s, Check(s, x), x, Check(s, x).mods[x], x);
  }

  lemma StepWanted(s: State, e: Event)
    requires AllFit(s) && Wanted(s) && Can(s, e)
    ensures Wanted(Step(s, e))
  {
    hide Wanted, EnableNext, Check, Notify, Arrive;
    match e
    case Turn(x) => TurnWanted(s, x);
    case EndTurn(x) => PutWanted(s, EnableEnd(s, x), x, s.mods[x].(enabling := false), x);
    case Checked(x) => CheckedWanted(s, x);
    case Called(x) => CalledWanted(s, x);
    case Arrived(x, deps) => ArrivedWanted(s, x, deps);
    case Required(x, deps) => PutWanted(s, Require(s, x, deps), x, Require(s, x, deps).mods[x], x);
    case Forced(x, i) => PutWanted(s, Force(s, x, i), x, DefineDep(s.mods[x], i), x);
  }

  /** In every run, only modules are enabled that some require call needs. */
  lemma {:induction false} RunWanted(events: seq<Event>)
    requires After(events).Some?
    ensures Wanted(After(events).value)
    decreases |events|
  {
    hide Wanted, Can, Step;
    if events == [] {
      assert Wanted(INIT) by {
        InitWanted();
      }
    } else {
      var n := |events| - 1;
      var r := After(events[..n]).value;
      RunWanted(events[..n]);
      RunKeeps(events[..n]);
      InvParts(r);
      StepWanted(r, events[n]);
    }
  }

  lemma InitWanted()
    ensures Wanted(INIT)
  {
  }

  /** Nothing is forced but by breaking cycles. */
  lemma {:induction false} RunUnforced(events: seq<Event>)
    requires After(events).Some? && forall e :: e in events ==> !e.Forced?
    ensures After(events).value.forced == {}
    decreases |events|
  {
    if events != [] {
      var n := |events| - 1;
      var r, e := After(events[..n]).value, events[n];
      assert e in events && forall e :: e in events[..n] ==> e in events;
      RunUnforced(events[..n]);
      StepUnforced(r, e);
    }
  }

  lemma StepUnforced(s: State, e: Event)
    requires Can(s, e) && !e.Forced?
    ensures Step(s, e).forced == s.forced
  {
  }

  ghost predicate HasArrived(s: State, x: Id) {
    x in s.mods && s.mods[x].inited
  }

  /** However the scripts arrive: if the dependencies have no cycle and the loader has nothing left to do, everything that require calls
      need is defined as soon as all of it has arrived, each factory has run once, and after those of its dependencies. */
  lemma AcyclicLoads(events: seq<Event>, s: State)
    requires After(events) == Some(s) && Quiet(s) && Acyclic(Deps(s)) && forall e :: e in events ==> !e.Forced?
    requires forall x :: Needed(s, x) ==> HasArrived(s, x)
    ensures forall x :: Needed(s, x) ==> s.Defined(x) && s.mods[x].runs == 1
    ensures NoDup(s.log) && forall x :: x in s.log <==> s.Defined(x)
    ensures forall k, i :: 0 <= k < |s.log| && s.log[k] in s.mods && 0 <= i < |s.mods[s.log[k]].deps| ==> s.mods[s.log[k]].deps[i] in s.log[..k]
  {
    hide After, Quiet, Acyclic, Deps, Needed, Linked, Listens, Due;
    RunKeeps(events);
    RunWanted(events);
    RunUnforced(events);
    RunSafe(events, s);
    forall x | x in s.mods ensures !Loading(s, x) {
      if s.mods[x].enabled {
        assert Needed(s, x);
      }
    }
    SettledSteady(s);
    AcyclicDefined(s);
    forall x | Needed(s, x) ensures s.Defined(x) && s.mods[x].runs == 1 {
      NeededEnabled(s, x);
      assert Fits(s.mods[x]);
    }
  }

  /** When nothing is left to do, what a require call needs is enabled, if it has arrived. */
  lemma NeededEnabled(s: State, x: Id)
    requires Settled(s) && Needed(s, x) && forall x :: Needed(s, x) ==> HasArrived(s, x)
    ensures x in s.mods && s.mods[x].enabled
  {
    hide Quiet, Almost, Deps;
    var r :| r in s.required && Needs(Deps(s), r, x);
    var p :| Chain(Deps(s), p) && p[0] == r && p[|p| - 1] == x;
    assert r in s.mods && s.mods[r].enabled by {
      SettledInv(s);
      RequiredEnabled(s);
    }
    RequiredNeeded(s, r);
    ChainEnabled(s, p);
  }

  lemma {:induction false} ChainEnabled(s: State, p: seq<Id>)
    requires Settled(s) && Chain(Deps(s), p) && p[0] in s.mods && s.mods[p[0]].enabled && Needed(s, p[0])
    requires forall x :: Needed(s, x) ==> HasArrived(s, x)
    ensures p[|p| - 1] in s.mods && s.mods[p[|p| - 1]].enabled
    decreases |p|
  {
    hide Settled, Needed;
    if |p| > 1 {
      var x, y := p[0], p[1];
      assert DependsAt(Deps(s), x, y);
      var i: nat :| i < |s.mods[x].deps| && s.mods[x].deps[i] == y;
      SettledDep(s, x, i);
      NextNeeded(s, x, y);
      assert Chain(Deps(s), p[1..]);
      ChainEnabled(s, p[1..]);
    }
  }

  // ---------- runs in which cycles are broken ----------

  /** Anything happens but the forcing of a dependency. */
  ghost predicate Happens(s: State, s': State) {
    exists e: Event :: !e.Forced? && Can(s, e) && s' == Step(s, e)
  }

  /** A run: at any time something happens, or, when the loader is at rest, the check for cycles is made. */
  ghost predicate Run(states: seq<State>) {
    && |states| > 0 && states[0] == INIT
    && forall k :: 0 < k < |states| ==> Happens(states[k - 1], states[k]) || (Settled(states[k - 1]) && Unlocked(states[k - 1], states[k]))
  }

  /** Only dependencies on cycles are ever forced. */
  ghost predicate OnlyCycles(s: State) {
    forall p :: p in s.forced ==> OnCycle(Deps(s), p.0, p.1)
  }

  ghost predicate Sound(s: State) {
    Inv(s) && Wanted(s) && Redeemed(s) && OnlyCycles(s)
  }

  /** Along with the dependencies, what is defined stays. */
  ghost predicate DefinedStays(s: State, s': State) {
    forall x :: s.Defined(x) ==> s'.Defined(x)
  }

  lemma PutGrows(s: State, s': State, x: Id, m: Module)
    requires s'.mods == s.mods[x := m]
    requires x in s.mods ==> (m.deps == s.mods[x].deps || s.mods[x].deps == []) && (s.mods[x].defined ==> m.defined)
    ensures Grows(Deps(s), Deps(s')) && DefinedStays(s, s')
  {
  }

  lemma GrowsOn(s: State, t: State, u: State)
    requires Grows(Deps(s), Deps(t)) && DefinedStays(s, t) && Grows(Deps(t), Deps(u)) && DefinedStays(t, u)
    ensures Grows(Deps(s), Deps(u)) && DefinedStays(s, u)
  {
    hide Deps;
  }

  lemma TurnGrows(s: State, x: Id)
    requires CanEnableNext(s, x)
    ensures Grows(Deps(s), Deps(EnableNext(s, x))) && DefinedStays(s, EnableNext(s, x))
  {
    hide Grows, DefinedStays, Deps, Awaited;
    var m := s.mods[x];
    var i, d := m.next, m.deps[m.next];
    var counted := m.(next := i + 1, depCount := m.depCount + 1);
    if s.Defined(d) {
      PutGrows(s, EnableNext(s, x), x, DefineDep(counted, i));
    } else {
      var t := s.(mods := s.mods[x := counted]);
      PutGrows(s, t, x, counted);
      AwaitedTurn(s, t, x, i, d);
      AwaitedSame(if d in t.mods then t.mods[d] else BLANK, x, i);
      PutGrows(t, EnableNext(s, x), d, Awaited(if d in t.mods then t.mods[d] else BLANK, x, i));
      GrowsOn(s, t, EnableNext(s, x));
    }
  }

  lemma AwaitedSame(m: Module, x: Id, i: nat)
    ensures Awaited(m, x, i).deps == m.deps && Awaited(m, x, i).defined == m.defined
  {
  }

  lemma CalledGrows(s: State, x: Id)
    requires CanNotify(s, x)
    ensures Grows(Deps(s), Deps(Notify(s, x))) && DefinedStays(s, Notify(s, x))
  {
    hide Grows, DefinedStays, Deps;
    var m := s.mods[x];
    var p, i := m.listeners[m.notified].0, m.listeners[m.notified].1;
    var t := s.(mods := s.mods[x := m.(notified := m.notified + 1)]);
    PutGrows(s, t, x, t.mods[x]);
    if p in t.mods {
      PutGrows(t, Notify(s, x), p, DefineDep(t.mods[p], i));
      GrowsOn(s, t, Notify(s, x));
    } else {
      assert Notify(s, x) == t;
    }
  }

  lemma ArrivedGrows(s: State, x: Id, deps: seq<Id>)
    requires AllFit(s)
    ensures Grows(Deps(s), Deps(Arrive(s, x, deps))) && DefinedStays(s, Arrive(s, x, deps))
  {
    hide Grows, DefinedStays, Deps;
    var s' := Arrive(s, x, deps);
    if s.Defined(x) {
      NothingGrows(s);
    } else {
      assert x in s.mods ==> Fits(s.mods[x]);
      PutGrows(s, s', x, s'.mods[x]);
    }
  }

  lemma NothingGrows(s: State)
    ensures Grows(Deps(s), Deps(s)) && DefinedStays(s, s)
  {
  }

  lemma StepGrows(s: State, e: Event)
    requires AllFit(s) && Can(s, e)
    ensures Grows(Deps(s), Deps(Step(s, e))) && DefinedStays(s, Step(s, e))
  {
    hide Grows, DefinedStays, Deps, EnableNext, Check, Notify, Arrive, AllFit;
    match e
    case Turn(x) => TurnGrows(s, x);
    case EndTurn(x) => PutGrows(s, EnableEnd(s, x), x, s.mods[x].(enabling := false));
    case Checked(x) => CheckedGrows(s, x);
    case Called(x) => CalledGrows(s, x);
    case Arrived(x, deps) => ArrivedGrows(s, x, deps);
    case Required(x, deps) => PutGrows(s, Require(s, x, deps), x, Require(s, x, deps).mods[x]);
    case Forced(x, i) => PutGrows(s, Force(s, x, i), x, DefineDep(s.mods[x], i));
  }

  lemma CheckedGrows(s: State, x: Id)
    requires CanCheck(s, x)
    ensures Grows(Deps(s), Deps(Check(s, x))) && DefinedStays(s, Check(s, x))
  {
    hide Grows, DefinedStays, Deps;
    PutGrows(s, Check(s, x), x, Check(s, x).mods[x]);
  }

  /** What has been redeemed stays redeemed, and what is on a cycle stays on it. */
  lemma GrowsRedeemed(s: State, s': State)
    requires Grows(Deps(s), Deps(s')) && DefinedStays(s, s') && s'.forced == s.forced && Redeemed(s) && OnlyCycles(s)
    ensures Redeemed(s') && OnlyCycles(s')
  {
    hide Needs;
    forall p | p in s.forced
      ensures p.0 in s'.mods && p.1 < |s'.mods[p.0].deps| && s'.Defined(s'.mods[p.0].deps[p.1]) && OnCycle(Deps(s'), p.0, p.1)
    {
      assert OnCycle(Deps(s), p.0, p.1) && Deps(s)[p.0] == s.mods[p.0].deps && Deps(s')[p.0] == s'.mods[p.0].deps;
      NeedsGrow(Deps(s), Deps(s'), s.mods[p.0].deps[p.1], p.0);
    }
  }

  /** Whatever happens, the invariants are kept. */
  lemma HappensSound(s: State, s': State)
    requires Sound(s) && Happens(s, s')
    ensures Sound(s')
  {
    hide *;
    var e := HappensBy(s, s');
    SoundParts(s);
    StepKeeps(s, e);
    StepWanted(s, e);
    StepUnforced(s, e);
    StepGrows(s, e);
    GrowsRedeemed(s, s');
    SoundMade(s');
  }

  lemma HappensBy(s: State, s': State) returns (e: Event)
    requires Happens(s, s')
    ensures !e.Forced? && Can(s, e) && s' == Step(s, e)
  {
    hide Can, Step;
    e :| !e.Forced? && Can(s, e) && s' == Step(s, e);
  }

  lemma SoundParts(s: State)
    requires Sound(s)
    ensures Inv(s) && Wanted(s) && Redeemed(s) && OnlyCycles(s) && AllFit(s)
  {
    hide Wanted, Redeemed, OnlyCycles;
    InvParts(s);
  }

  lemma SoundMade(s: State)
    requires Inv(s) && Wanted(s) && Redeemed(s) && OnlyCycles(s)
    ensures Sound(s)
  {
    hide Inv, Wanted, Redeemed, OnlyCycles;
  }

  /** So does the check for cycles. */
  lemma UnlockedSound(s: State, s': State)
    requires Sound(s) && Settled(s) && Unlocked(s, s')
    ensures Sound(s')
  {
    hide *;
    SoundParts(s);
    UnlockedParts(s, s');
    UnlockedWanted(s, s');
    UnlockedCycles(s, s');
    SettledInv(s');
    SoundMade(s');
  }

  lemma UnlockedParts(s: State, s': State)
    requires Unlocked(s, s')
    ensures Settled(s') && Redeemed(s') && Onward(s, s') && Stays(s, s') && Deps(s') == Deps(s) && Cyclic(Deps(s), s.forced, s'.forced)
    ensures if exists x :: Loading(s, x) then s' == s else AllLoaded(s')
  {
    hide Settled, Redeemed, Onward, Stays, Deps, Cyclic, Loading, AllLoaded;
  }

  lemma UnlockedWanted(s: State, s': State)
    requires Wanted(s) && Onward(s, s') && Stays(s, s') && Deps(s') == Deps(s)
    ensures Wanted(s')
  {
    hide Deps, Needs, Later;
    forall x | x in s'.mods && s'.mods[x].enabled ensures Needed(s', x) {
      assert Needed(s, x);
    }
  }

  lemma UnlockedCycles(s: State, s': State)
    requires OnlyCycles(s) && Deps(s') == Deps(s) && Cyclic(Deps(s), s.forced, s'.forced)
    ensures OnlyCycles(s')
  {
    hide Deps, OnCycle;
  }

  /** In every run the invariants hold throughout: only what a require call needs is enabled, and what has been forced lay on a cycle and is
      defined by now. In particular the check for cycles may be made whenever the loader is at rest. */
  lemma {:induction false} RunSound(states: seq<State>)
    requires Run(states)
    ensures Sound(states[|states| - 1])
    decreases |states|
  {
    hide Happens, Settled, Unlocked, Sound;
    var n := |states| - 1;
    if n == 0 {
      InitSound();
    } else {
      var before := states[..n];
      assert forall k :: 0 <= k < n ==> before[k] == states[k];
      RunSound(before);
      if Happens(states[n - 1], states[n]) {
        HappensSound(states[n - 1], states[n]);
      } else {
        UnlockedSound(states[n - 1], states[n]);
      }
    }
  }

  lemma InitSound()
    ensures Sound(INIT)
  {
    InitFits();
    InitWanted();
  }

  /** However the scripts arrive, and whatever cycles their dependencies have: once all that require calls need has arrived and the loader is
      at rest, the check for cycles leads to a state in which all of it is defined. Each factory has run once, and only for a dependency on a
      cycle it may have run before that of the dependency. */
  lemma CyclicLoads(states: seq<State>, s: State, s': State)
    requires Run(states) && s == states[|states| - 1] && Settled(s) && Unlocked(s, s')
    requires forall x :: Needed(s, x) ==> HasArrived(s, x)
    ensures Run(states + [s'])
    ensures forall x :: Needed(s', x) ==> s'.Defined(x) && s'.mods[x].runs == 1
    ensures NoDup(s'.log) && forall x :: x in s'.log <==> s'.Defined(x)
    ensures forall k, i: nat :: 0 <= k < |s'.log| && s'.log[k] in s'.mods && i < |s'.mods[s'.log[k]].deps| ==>
              s'.mods[s'.log[k]].deps[i] in s'.log[..k] || OnCycle(Deps(s'), s'.log[k], i)
  {
    hide *;
    RunSound(states);
    RunMore(states, s');
    UnlockedSound(s, s');
    SoundParts(s);
    SoundParts(s');
    UnlockedParts(s, s');
    NoneLoading(s);
    forall x | Needed(s', x) ensures x in s'.mods && s'.Defined(x) && s'.mods[x].runs == 1 {
      LoadedNeeded(s', x);
      DefinedOnce(s', x);
    }
    SoundLogged(s');
  }

  lemma RunMore(states: seq<State>, s': State)
    requires Run(states) && Settled(states[|states| - 1]) && Unlocked(states[|states| - 1], s')
    ensures Run(states + [s'])
  {
    hide Happens, Settled, Unlocked;
    var more := states + [s'];
    forall k | 0 < k < |more| ensures Happens(more[k - 1], more[k]) || (Settled(more[k - 1]) && Unlocked(more[k - 1], more[k])) {
      if k < |states| {
        assert more[k - 1] == states[k - 1] && more[k] == states[k];
      }
    }
  }

  lemma NoneLoading(s: State)
    requires Wanted(s) && forall x :: Needed(s, x) ==> HasArrived(s, x)
    ensures forall x :: !Loading(s, x)
  {
    hide Needed;
  }

  lemma LoadedNeeded(s: State, x: Id)
    requires AllLoaded(s) && Needed(s, x)
    ensures s.Defined(x)
  {
    hide Needs, Deps, State.Defined;
  }

  lemma DefinedOnce(s: State, x: Id)
    requires AllFit(s) && s.Defined(x)
    ensures x in s.mods && s.mods[x].runs == 1
  {
    assert Fits(s.mods[x]);
  }

  lemma SoundLogged(s: State)
    requires Inv(s) && OnlyCycles(s)
    ensures NoDup(s.log) && forall x :: x in s.log <==> s.Defined(x)
    ensures forall k, i: nat :: 0 <= k < |s.log| && s.log[k] in s.mods && i < |s.mods[s.log[k]].deps| ==>
              s.mods[s.log[k]].deps[i] in s.log[..k] || OnCycle(Deps(s), s.log[k], i)
  {
    hide OnCycle, Deps, AllFit, AllLinked, AllListen, AllDue, Scoped;
  }
}
