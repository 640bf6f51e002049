/** Ordering the nodes within their layers: sweeps that sort one layer after the other by
    barycenters, of which the best result is kept. */
module Orders {
  import opened Base
  import opened Digraphs
  import opened CrossCounts

  // ---------- barycenters ----------

  function Sum(ws: seq<real>): real {
    if ws == [] then 0.0 else Sum(ws[..|ws| - 1]) + ws[|ws| - 1]
  }

  function Barycenter(ws: seq<real>): real {
    if ws == [] then 0.0 else Sum(ws) / (|ws| as real)
  }

  /** The sum of two parts is that of the whole. */
  lemma {:induction false} SumOfParts(a: seq<real>, b: seq<real>)
    ensures Sum(a + b) == Sum(a) + Sum(b)
    decreases |b|
  {
    if b == [] {
      assert a + b == a;
    } else {
      SumOfParts(a, b[..|b| - 1]);
      assert (a + b)[..|a + b| - 1] == a + b[..|b| - 1];
    }
  }

  lemma SumOfOne(x: real)
    ensures Sum([x]) == x
  {
    assert [x][..0] == [];
  }

  /** How far the weights are from c. */
  function Deviations(ws: seq<real>, c: real): seq<real> {
    seq(|ws|, k requires 0 <= k < |ws| => ws[k] - c)
  }

  lemma {:induction false} DeviationSum(ws: seq<real>, c: real)
    ensures Sum(Deviations(ws, c)) == Sum(ws) - (|ws| as real) * c
    decreases |ws|
  {
    if ws == [] {
      assert Deviations(ws, c) == [];
    } else {
      var front := ws[..|ws| - 1];
      DeviationSum(front, c);
      assert Deviations(ws, c)[..|ws| - 1] == Deviations(front, c);
      assert (|front| as real) * c + c == (|ws| as real) * c;
    }
  }

  /** The barycenter is the one number from which the weights deviate as far upwards as downwards. */
  lemma BarycenterIs(ws: seq<real>, c: real)
    requires ws != []
    ensures Sum(Deviations(ws, c)) == 0.0 <==> c == Barycenter(ws)
  {
    DeviationSum(ws, c);
    Divided(Sum(ws), |ws| as real, c);
  }

  lemma Divided(s: real, n: real, c: real)
    requires n > 0.0
    ensures s - n * c == 0.0 <==> c == s / n
  {
    assert (s / n) * n == s;
    if c == s / n {
      assert n * c == s;
    }
    if n * c == s {
      assert (c - s / n) * n == 0.0;
    }
  }

  /** It does not lie above or below all weights. */
  lemma BarycenterBelow(ws: seq<real>, hi: real)
    requires ws != [] && forall k :: 0 <= k < |ws| ==> ws[k] <= hi
    ensures Barycenter(ws) <= hi
  {
    hide Barycenter;
    var b := Barycenter(ws);
    BarycenterIs(ws, b);
    if b > hi {
      SumSign(Deviations(ws, b), false);
    }
  }

  lemma BarycenterAbove(ws: seq<real>, lo: real)
    requires ws != [] && forall k :: 0 <= k < |ws| ==> lo <= ws[k]
    ensures lo <= Barycenter(ws)
  {
    hide Barycenter;
    var b := Barycenter(ws);
    BarycenterIs(ws, b);
    if b < lo {
      SumSign(Deviations(ws, b), true);
    }
  }

  /** A sum of numbers with the same sign has that sign. */
  lemma {:induction false} SumSign(q: seq<real>, up: bool)
    requires q != [] && forall k :: 0 <= k < |q| ==> if up then q[k] > 0.0 else q[k] < 0.0
    ensures if up then Sum(q) > 0.0 else Sum(q) < 0.0
    decreases |q|
  {
    if |q| == 1 {
      assert q == [q[0]];
      SumOfOne(q[0]);
    } else {
      SumSign(q[..|q| - 1], up);
    }
  }

  /** If all weights of one node are less than all of another, so is the barycenter. */
  lemma BarycenterLess(a: seq<real>, b: seq<real>)
    requires a != [] && b != [] && forall j, k :: 0 <= j < |a| && 0 <= k < |b| ==> a[j] < b[k]
    ensures Barycenter(a) < Barycenter(b)
  {
    hide Barycenter;
    var j := Extreme(a, true);
    var k := Extreme(b, false);
    BarycenterBelow(a, a[j]);
    BarycenterAbove(b, b[k]);
  }

  lemma {:induction false} Extreme(ws: seq<real>, up: bool) returns (j: nat)
    requires ws != []
    ensures j < |ws| && forall k :: 0 <= k < |ws| ==> if up then ws[k] <= ws[j] else ws[j] <= ws[k]
    decreases |ws|
  {
    var last := |ws| - 1;
    j := last;
    if last > 0 {
      var i := Extreme(ws[..last], up);
      if (if up then ws[i] > ws[last] else ws[i] < ws[last]) {
        j := i;
      }
    }
  }

  /** The weights of a node, spread over the n places of its layer; lo and hi bound all weights of the layer. */
  function Adjusted(ws: seq<nat>, order: nat, lo: nat, hi: nat, n: nat): seq<real> {
    if ws == [] then [order as real]
    else seq(|ws|, k requires 0 <= k < |ws| => Spread(ws[k], lo, hi, n))
  }

  function Spread(w: nat, lo: nat, hi: nat, n: nat): real {
    if hi != lo then ((w - lo) * (n - 1)) as real / (hi - lo) as real else n as real - 0.5
  }

  /** The spread weights stay within the places 0..n-1 exactly if not all weights of the layer are the same. */
  lemma SpreadFits(w: nat, lo: nat, hi: nat, n: nat)
    requires lo <= w <= hi && n > 0
    ensures 0.0 <= Spread(w, lo, hi, n) <= (n - 1) as real <==> lo != hi
  {
    if lo != hi {
      var a, b, m := w - lo, hi - lo, n - 1;
      assert 0 <= a * m <= b * m by {
        MulLess(a, b, m);
      }
      Quotient((a * m) as real, b as real, m as real);
    }
  }

  /** x is w spread in proportion: the least weight goes to the first place, the greatest to the last; without a least and a greatest, all go half a
      place behind the last one. */
  ghost predicate InProportion(x: real, w: nat, lo: nat, hi: nat, n: nat) {
    if lo != hi then x * (hi - lo) as real == (w - lo) as real * (n - 1) as real else x == (n - 1) as real + 0.5
  }

  lemma SpreadIs(w: nat, lo: nat, hi: nat, n: nat)
    ensures InProportion(Spread(w, lo, hi, n), w, lo, hi, n)
  {
    if lo != hi {
      var a, b := ((w - lo) * (n - 1)) as real, (hi - lo) as real;
      assert a / b * b == a;
    }
  }

  lemma MulLess(a: nat, b: nat, m: nat)
    requires a <= b
    ensures 0 <= a * m <= b * m
  {
  }

  lemma Quotient(x: real, b: real, m: real)
    requires 0.0 <= x <= b * m && b > 0.0
    ensures 0.0 <= x / b <= m
  {
  }

  ghost function WeightSet(us: set<Id>, weights: map<Id, seq<nat>>): set<nat> {
    set u, k | u in us && u in weights && 0 <= k < |weights[u]| :: weights[u][k]
  }

  /** lo and hi are the least and the greatest of the weights, if there are any. */
  ghost predicate Bounds(ws: set<nat>, lo: nat, hi: nat) {
    (ws != {} ==> lo in ws && hi in ws) && forall w :: w in ws ==> lo <= w <= hi
  }

  /** The orders of the neighbours of u, in some order. */
  ghost predicate WeightsOf(g: Layered, order: map<Id, nat>, down: bool, u: Id, ws: seq<nat>) {
    exists es :: Lists(es, if down then g.InEdges(u) else g.OutEdges(u)) && |ws| == |es| &&
                 forall k :: 0 <= k < |es| ==> es[k] in g.edges && ws[k] == Source(g, order, down, es[k])
  }

  function Source(g: Layered, order: map<Id, nat>, down: bool, e: Id): nat {
    if e !in g.edges then 0
    else
      var v := if down then g.edges[e].u else g.edges[e].v;
      if v in order then order[v] else 0
  }

  /** The sum of f over a set. */
  ghost function Total(s: set<Id>, f: Id -> real): real {
    if s == {} then 0.0 else var x :| x in s; f(x) + Total(s - {x}, f)
  }

  lemma {:induction false} TotalWithout(s: set<Id>, f: Id -> real, x: Id)
    requires x in s
    ensures Total(s, f) == f(x) + Total(s - {x}, f)
    decreases s
  {
    var y :| y in s && Total(s, f) == f(y) + Total(s - {y}, f);
    if y != x {
      TotalWithout(s - {y}, f, x);
      TotalWithout(s - {x}, f, y);
      assert s - {y} - {x} == s - {x} - {y};
    }
  }

  /** The sum over a listing is that over the set, whatever the listing. */
  lemma {:induction false} SumOfListing(es: seq<Id>, s: set<Id>, ws: seq<real>, f: Id -> real)
    requires Lists(es, s) && |ws| == |es| && forall k :: 0 <= k < |es| ==> ws[k] == f(es[k])
    ensures Sum(ws) == Total(s, f) && |ws| == |s|
    decreases |es|
  {
    ListsSize(es, s);
    if es != [] {
      var n := |es| - 1;
      assert es[n] in s;
      TotalWithout(s, f, es[n]);
      ListsFront(es, s);
      SumOfListing(es[..n], s - {es[n]}, ws[..n], f);
    }
  }

  lemma ListsFront(es: seq<Id>, s: set<Id>)
    requires Lists(es, s) && es != []
    ensures Lists(es[..|es| - 1], s - {es[|es| - 1]})
  {
    var n := |es| - 1;
    forall y ensures y in es[..n] <==> y in s - {es[n]} {
      if y in s - {es[n]} {
        var i :| 0 <= i < |es| && es[i] == y;
        assert es[..n][i] == y;
      }
    }
  }

  /** The order of the end of e that is not u. */
  ghost function OrderAcross(g: Layered, order: map<Id, nat>, u: Id, e: Id): nat {
    if e !in g.edges then 0
    else
      var v := if g.edges[e].u == u then g.edges[e].v else g.edges[e].u;
      if v in order then order[v] else 0
  }

  /** The edges to u, going down, or from it, going up. */
  ghost function EdgesAt(g: Layered, down: bool, u: Id): set<Id> {
    set e | e in g.edges && u == if down then g.edges[e].v else g.edges[e].u
  }

  ghost function SpreadAcross(g: Layered, order: map<Id, nat>, u: Id, lo: nat, hi: nat, n: nat): Id -> real {
    e => Spread(OrderAcross(g, order, u, e), lo, hi, n)
  }

  /** The barycenter that a node is sorted by is the sum of its neighbours' spread orders, divided by their number, whatever the order in which they are
      listed; going down, these are the neighbours that edges to the node come from, going up, those that edges from it lead to. Without neighbours
      it is the place of the node. */
  lemma BarycenterOfEdges(g: Layered, order: map<Id, nat>, down: bool, u: Id, ws: seq<nat>, place: nat, lo: nat, hi: nat, n: nat)
    requires WeightsOf(g, order, down, u, ws)
    ensures var edges, b := EdgesAt(g, down, u), Barycenter(Adjusted(ws, place, lo, hi, n));
      |ws| == |edges| && if edges == {} then b == place as real else b * |edges| as real == Total(edges, SpreadAcross(g, order, u, lo, hi, n))
  {
    hide *;
    var edges, q := EdgesAt(g, down, u), Adjusted(ws, place, lo, hi, n);
    var es := EdgesListed(g, order, down, u, ws);
    ListsSize(es, edges);
    AdjustedSpread(g, order, u, es, ws, place, lo, hi, n);
    if ws == [] {
      BarycenterOfOne(place as real);
    } else {
      SumOfListing(es, edges, q, SpreadAcross(g, order, u, lo, hi, n));
      BarycenterTimes(q);
    }
  }

  lemma EdgesListed(g: Layered, order: map<Id, nat>, down: bool, u: Id, ws: seq<nat>) returns (es: seq<Id>)
    requires WeightsOf(g, order, down, u, ws)
    ensures Lists(es, EdgesAt(g, down, u)) && |ws| == |es| && forall k :: 0 <= k < |es| ==> ws[k] == OrderAcross(g, order, u, es[k])
  {
    hide Source, OrderAcross, Lists;
    var edges := EdgesAt(g, down, u);
    assert edges == if down then g.InEdges(u) else g.OutEdges(u);
    es :| Lists(es, edges) && |ws| == |es| && forall k :: 0 <= k < |es| ==> es[k] in g.edges && ws[k] == Source(g, order, down, es[k]);
    forall k | 0 <= k < |es| ensures ws[k] == OrderAcross(g, order, u, es[k]) {
      ListedIn(es, edges, k);
      AcrossIs(g, order, down, u, es[k]);
    }
  }

  lemma AdjustedSpread(g: Layered, order: map<Id, nat>, u: Id, es: seq<Id>, ws: seq<nat>, place: nat, lo: nat, hi: nat, n: nat)
    requires |ws| == |es| && forall k :: 0 <= k < |es| ==> ws[k] == OrderAcross(g, order, u, es[k])
    ensures ws == [] ==> Adjusted(ws, place, lo, hi, n) == [place as real]
    ensures ws != [] ==> |Adjusted(ws, place, lo, hi, n)| == |es|
    ensures ws != [] ==> forall k :: 0 <= k < |es| ==> Adjusted(ws, place, lo, hi, n)[k] == SpreadAcross(g, order, u, lo, hi, n)(es[k])
  {
    hide Spread, OrderAcross;
  }

  lemma ListedIn(es: seq<Id>, s: set<Id>, k: nat)
    requires Lists(es, s) && k < |es|
    ensures es[k] in s
  {
  }

  lemma AcrossIs(g: Layered, order: map<Id, nat>, down: bool, u: Id, e: Id)
    requires e in g.edges && u == if down then g.edges[e].v else g.edges[e].u
    ensures Source(g, order, down, e) == OrderAcross(g, order, u, e)
  {
  }

  lemma BarycenterOfOne(x: real)
    ensures Barycenter([x]) == x
  {
    SumOfOne(x);
  }

  lemma BarycenterTimes(ws: seq<real>)
    requires ws != []
    ensures Barycenter(ws) * |ws| as real == Sum(ws)
  {
    var s, n := Sum(ws), |ws| as real;
    assert s / n * n == s;
  }

  /** Going down, a node's weights are the orders of its predecessors; going up, those of its successors. */
  method NeighborWeights(g: Layered, order: map<Id, nat>, us: set<Id>, down: bool) returns (weights: map<Id, seq<nat>>)
    ensures weights.Keys == us && forall u :: u in us ==> WeightsOf(g, order, down, u, weights[u])
  {
    hide WeightsOf, Lists, Upto;
    weights := map[];
    var nodes := Listing(us);
    UptoEnds(nodes, us);
    for i := 0 to |nodes|
      invariant weights.Keys == Upto(nodes, i) && forall u :: u in weights ==> WeightsOf(g, order, down, u, weights[u])
    {
      UptoStep(nodes, us, i);
      var ws := EdgeOrders(g, order, nodes[i], down);
      weights := weights[nodes[i] := ws];
    }
  }

  method EdgeOrders(g: Layered, order: map<Id, nat>, u: Id, down: bool) returns (ws: seq<nat>)
    ensures WeightsOf(g, order, down, u, ws)
  {
    var edges := if down then g.InEdges(u) else g.OutEdges(u);
    var es := Listing(edges);
    ws := [];
    for k := 0 to |es|
      invariant |ws| == k && forall j :: 0 <= j < k ==> ws[j] == Source(g, order, down, es[j])
    {
      ws := ws + [Source(g, order, down, es[k])];
    }
    forall k | 0 <= k < |es| ensures es[k] in g.edges {
      assert es[k] in edges;
    }
    assert Lists(es, if down then g.InEdges(u) else g.OutEdges(u));
  }

  /** The least and the greatest weight. */
  method FindBounds(us: set<Id>, weights: map<Id, seq<nat>>) returns (lo: nat, hi: nat)
    requires us <= weights.Keys
    ensures Bounds(WeightSet(us, weights), lo, hi)
  {
    lo, hi := 0, 0;
    var some := false;
    var rest := us;
    assert WeightSet(us - rest, weights) == {};
    while rest != {}
      invariant rest <= us && Bounds(WeightSet(us - rest, weights), lo, hi)
      invariant some <==> WeightSet(us - rest, weights) != {}
      decreases rest
    {
      var u :| u in rest;
      ghost var before := WeightSet(us - rest, weights);
      for k := 0 to |weights[u]|
        invariant Bounds(before + Firsts(weights[u], k), lo, hi) && (some <==> before + Firsts(weights[u], k) != {})
      {
        FirstsStep(weights[u], k);
        var w := weights[u][k];
        if !some || w < lo {
          lo := w;
        }
        if !some || w > hi {
          hi := w;
        }
        some := true;
      }
      MoreWeights(us - rest, weights, u);
      assert us - (rest - {u}) == us - rest + {u};
      rest := rest - {u};
    }
    assert us - rest == us;
  }

  ghost function Firsts(ws: seq<nat>, n: nat): set<nat>
    requires n <= |ws|
  {
    set k | 0 <= k < n :: ws[k]
  }

  lemma FirstsStep(ws: seq<nat>, n: nat)
    requires n < |ws|
    ensures Firsts(ws, n + 1) == Firsts(ws, n) + {ws[n]}
  {
  }

  lemma MoreWeights(us: set<Id>, weights: map<Id, seq<nat>>, u: Id)
    requires u in weights
    ensures WeightSet(us + {u}, weights) == WeightSet(us, weights) + Firsts(weights[u], |weights[u]|)
  {
  }

  /** The weights of all nodes of a layer of n nodes, spread over its places; a node without weights stays where it is. */
  method AdjustWeights(us: set<Id>, order: map<Id, nat>, weights: map<Id, seq<nat>>, n: nat)
    returns (adjusted: map<Id, seq<real>>, lo: nat, hi: nat)
    requires us <= weights.Keys && us <= order.Keys
    ensures Bounds(WeightSet(us, weights), lo, hi)
    ensures adjusted.Keys == us && forall u :: u in us ==> adjusted[u] == Adjusted(weights[u], order[u], lo, hi, n)
  {
    lo, hi := FindBounds(us, weights);
    adjusted := map u | u in us :: Adjusted(weights[u], order[u], lo, hi, n);
  }

  // ---------- sorting a layer ----------

  /** u comes before v: by barycenter, and by the previous order among equals. */
  predicate NotAfter(order: map<Id, nat>, ws: map<Id, seq<real>>, u: Id, v: Id)
    requires u in order && v in order && u in ws && v in ws
  {
    Barycenter(ws[u]) < Barycenter(ws[v]) || (Barycenter(ws[u]) == Barycenter(ws[v]) && order[u] <= order[v])
  }

  ghost predicate SortedBy(order: map<Id, nat>, ws: map<Id, seq<real>>, q: seq<Id>) {
    && (forall k :: 0 <= k < |q| ==> q[k] in order && q[k] in ws)
    && forall k, l :: 0 <= k < l < |q| ==> NotAfter(order, ws, q[k], q[l])
  }

  method Foremost(order: map<Id, nat>, ws: map<Id, seq<real>>, us: set<Id>) returns (m: Id)
    requires us != {} && us <= order.Keys && us <= ws.Keys
    ensures m in us && forall u :: u in us ==> NotAfter(order, ws, m, u)
  {
    m :| m in us;
    var left := us - {m};
    while left != {}
      invariant m in us && left <= us && forall u :: u in us - left ==> NotAfter(order, ws, m, u)
      decreases left
    {
      var u :| u in left;
      if !NotAfter(order, ws, m, u) {
        forall v | v in us - left ensures NotAfter(order, ws, u, v) {
          NotAfterOn(order, ws, m, u, v);
        }
        m := u;
      }
      left := left - {u};
    }
  }

  lemma NotAfterOn(order: map<Id, nat>, ws: map<Id, seq<real>>, m: Id, u: Id, v: Id)
    requires m in order && u in order && v in order && m in ws && u in ws && v in ws
    requires !NotAfter(order, ws, m, u) && NotAfter(order, ws, m, v)
    ensures NotAfter(order, ws, u, v) && NotAfter(order, ws, u, u)
  {
    hide Barycenter;
  }

  method SortNodes(order: map<Id, nat>, ws: map<Id, seq<real>>, us: set<Id>) returns (q: seq<Id>)
    requires us <= order.Keys && us <= ws.Keys
    ensures Lists(q, us) && SortedBy(order, ws, q)
  {
    hide NotAfter;
    q := [];
    var rest := us;
    while rest != {}
      invariant rest <= us && Lists(q, us - rest) && SortedBy(order, ws, q)
      invariant forall k, u :: 0 <= k < |q| && u in rest ==> NotAfter(order, ws, q[k], u)
      decreases rest
    {
      var m := Foremost(order, ws, rest);
      AppendEdge(q, us - rest, m);
      assert us - rest + {m} == us - (rest - {m});
      q := q + [m];
      rest := rest - {m};
    }
    assert us - rest == us;
  }

  /** order' has layer i sorted by the barycenters of the given weights, spread over the places of the layer, and all else as in order. */
  ghost predicate SortedInto(g: Layered, i: nat, order: map<Id, nat>, weights: map<Id, seq<nat>>, order': map<Id, nat>,
                             q: seq<Id>, adjusted: map<Id, seq<real>>, lo: nat, hi: nat)
  {
    && Bounds(WeightSet(g.Layer(i), weights), lo, hi) && adjusted.Keys == g.Layer(i)
    && (forall u :: u in g.Layer(i) ==>
          u in weights && u in order && adjusted[u] == Adjusted(weights[u], order[u], lo, hi, |g.Layer(i)|))
    && PlacedAs(q, g.Layer(i), order') && SortedBy(order, adjusted, q)
    && order'.Keys == order.Keys && forall u :: u in order && u !in g.Layer(i) ==> order'[u] == order[u]
  }

  /** Puts the nodes of layer i into the order of their barycenters, and leaves all other layers alone. */
  method SortLayer(g: Layered, i: nat, order: map<Id, nat>, weights: map<Id, seq<nat>>)
    returns (order': map<Id, nat>, ghost q: seq<Id>, ghost adjusted: map<Id, seq<real>>, ghost lo: nat, ghost hi: nat)
    requires Drawn(g, order) && i < g.height && weights.Keys == g.Layer(i)
    ensures Drawn(g, order') && SortedInto(g, i, order, weights, order', q, adjusted, lo, hi)
  {
    hide SortedBy, PlacedAs, Lists, Adjusted, Bounds, WeightSet;
    var us := g.Layer(i);
    var ws, least, greatest;
    LayerPlaced(g, order, i);
    ws, least, greatest := AdjustWeights(us, order, weights, |us|);
    adjusted, lo, hi := ws, least, greatest;
    var list := SortNodes(order, ws, us);
    q := list;
    order' := order;
    for k := 0 to |list|
      invariant Renumbered(order, order', list, k)
    {
      RenumberedStep(order, order', list, us, k);
      order' := order'[list[k] := k];
    }
    SortedDrawn(g, i, order, order', list);
    RenumberedElsewhere(order, order', list, us);
  }

  lemma RenumberedElsewhere(order: map<Id, nat>, order': map<Id, nat>, q: seq<Id>, us: set<Id>)
    requires Renumbered(order, order', q, |q|) && Lists(q, us)
    ensures order'.Keys == order.Keys && forall u :: u in order && u !in us ==> order'[u] == order[u]
  {
  }

  lemma LayerPlaced(g: Layered, order: map<Id, nat>, i: nat)
    requires Drawn(g, order)
    ensures g.Layer(i) <= order.Keys && order.Keys == g.rank.Keys
  {
  }

  /** The first n nodes of q have their new numbers, all other nodes the old ones. */
  ghost predicate Renumbered(order: map<Id, nat>, order': map<Id, nat>, q: seq<Id>, n: nat) {
    && order'.Keys == order.Keys && n <= |q|
    && (forall k :: 0 <= k < n ==> q[k] in order' && order'[q[k]] == k)
    && (forall u :: u in order && u !in q ==> order'[u] == order[u])
  }

  lemma RenumberedStep(order: map<Id, nat>, order': map<Id, nat>, q: seq<Id>, us: set<Id>, n: nat)
    requires Renumbered(order, order', q, n) && n < |q| && Lists(q, us) && us <= order.Keys
    ensures Renumbered(order, order'[q[n] := n], q, n + 1)
  {
    assert q[n] in us;
  }

  lemma SortedDrawn(g: Layered, i: nat, order: map<Id, nat>, order': map<Id, nat>, q: seq<Id>)
    requires Drawn(g, order) && i < g.height && Lists(q, g.Layer(i)) && Renumbered(order, order', q, |q|)
    ensures Drawn(g, order') && PlacedAs(q, g.Layer(i), order')
    ensures forall u :: u in g.rank && g.rank[u] != i ==> u in order && order'[u] == order[u]
  {
    assert PlacedAs(q, g.Layer(i), order');
    forall u | u in g.rank && g.rank[u] != i ensures u in order && order'[u] == order[u] {
      assert u !in g.Layer(i);
    }
    forall j: nat | j < g.height ensures Placed(g.Layer(j), order') {
      if j != i {
        var r :| PlacedAs(r, g.Layer(j), order);
        OtherPlaced(g, j, order, order', r);
      }
    }
  }

  lemma OtherPlaced(g: Layered, j: nat, order: map<Id, nat>, order': map<Id, nat>, r: seq<Id>)
    requires PlacedAs(r, g.Layer(j), order) && order'.Keys == order.Keys
    requires forall u :: u in g.Layer(j) ==> u in order && order'[u] == order[u]
    ensures PlacedAs(r, g.Layer(j), order')
  {
    forall k | 0 <= k < |r| ensures r[k] in order' && order'[r[k]] == k {
      assert r[k] in g.Layer(j);
    }
  }

  /** The weights that a layer is sorted by: the place of a node without neighbours, and for another one its weights spread in proportion. */
  lemma AdjustedIs(g: Layered, i: nat, order: map<Id, nat>, weights: map<Id, seq<nat>>, order': map<Id, nat>,
                   q: seq<Id>, adjusted: map<Id, seq<real>>, lo: nat, hi: nat, u: Id)
    requires SortedInto(g, i, order, weights, order', q, adjusted, lo, hi) && u in g.Layer(i)
    ensures u in order && u in weights && u in adjusted
    ensures weights[u] == [] ==> adjusted[u] == [order[u] as real]
    ensures weights[u] != [] ==> |adjusted[u]| == |weights[u]|
    ensures forall k :: 0 <= k < |weights[u]| ==> k < |adjusted[u]| && InProportion(adjusted[u][k], weights[u][k], lo, hi, |g.Layer(i)|)
  {
    hide SortedBy, Bounds, WeightSet, Spread, InProportion;
    forall k | 0 <= k < |weights[u]| ensures InProportion(adjusted[u][k], weights[u][k], lo, hi, |g.Layer(i)|) {
      SpreadIs(weights[u][k], lo, hi, |g.Layer(i)|);
    }
  }

  /** m is the mean of a node's weights: they deviate from it as far upwards as downwards. */
  ghost predicate IsMean(ws: seq<real>, m: real) {
    ws != [] && Sum(Deviations(ws, m)) == 0.0
  }

  /** In a sorted layer, the node with the lesser mean comes first, and of two with the same mean the one that was first before. */
  lemma SortedByMeans(g: Layered, i: nat, order: map<Id, nat>, weights: map<Id, seq<nat>>, order': map<Id, nat>,
                      q: seq<Id>, adjusted: map<Id, seq<real>>, lo: nat, hi: nat, u: Id, v: Id, mu: real, mv: real)
    requires SortedInto(g, i, order, weights, order', q, adjusted, lo, hi) && u in g.Layer(i) && v in g.Layer(i)
    requires u in order && v in order && u in adjusted && v in adjusted && IsMean(adjusted[u], mu) && IsMean(adjusted[v], mv)
    requires mu < mv || (mu == mv && order[u] < order[v])
    ensures u in order' && v in order' && order'[u] < order'[v]
  {
    hide *;
    MeanIs(adjusted[u], mu);
    MeanIs(adjusted[v], mv);
    var a, b := SortedPlaces(g, i, order, weights, order', q, adjusted, lo, hi, u, v);
    if b < a {
      SortedAt(order, adjusted, q, b, a);
    }
  }

  lemma MeanIs(ws: seq<real>, m: real)
    requires IsMean(ws, m)
    ensures m == Barycenter(ws)
  {
    hide Barycenter;
    BarycenterIs(ws, m);
  }

  lemma SortedPlaces(g: Layered, i: nat, order: map<Id, nat>, weights: map<Id, seq<nat>>, order': map<Id, nat>,
                     q: seq<Id>, adjusted: map<Id, seq<real>>, lo: nat, hi: nat, u: Id, v: Id) returns (a: nat, b: nat)
    requires SortedInto(g, i, order, weights, order', q, adjusted, lo, hi) && u in g.Layer(i) && v in g.Layer(i)
    ensures a < |q| && b < |q| && q[a] == u && q[b] == v && u in order' && v in order' && order'[u] == a && order'[v] == b
    ensures SortedBy(order, adjusted, q)
  {
    hide SortedBy, Bounds, WeightSet, Adjusted;
    assert u in q && v in q;
    a :| a < |q| && q[a] == u;
    b :| b < |q| && q[b] == v;
  }

  lemma SortedAt(order: map<Id, nat>, ws: map<Id, seq<real>>, q: seq<Id>, a: nat, b: nat)
    requires SortedBy(order, ws, q) && a < b < |q|
    ensures q[a] in order && q[b] in order && q[a] in ws && q[b] in ws
    ensures Barycenter(ws[q[a]]) < Barycenter(ws[q[b]]) || (Barycenter(ws[q[a]]) == Barycenter(ws[q[b]]) && order[q[a]] <= order[q[b]])
  {
    hide Barycenter;
    assert NotAfter(order, ws, q[a], q[b]);
  }

  /** If all weights that u is sorted by are less than all those of v, u comes before v. */
  lemma ClearlyBefore(g: Layered, i: nat, order: map<Id, nat>, weights: map<Id, seq<nat>>, order': map<Id, nat>,
                      q: seq<Id>, adjusted: map<Id, seq<real>>, lo: nat, hi: nat, u: Id, v: Id)
    requires SortedInto(g, i, order, weights, order', q, adjusted, lo, hi) && u in g.Layer(i) && v in g.Layer(i)
    requires u in adjusted && v in adjusted
    requires forall j, k :: 0 <= j < |adjusted[u]| && 0 <= k < |adjusted[v]| ==> adjusted[u][j] < adjusted[v][k]
    ensures u in order' && v in order' && order'[u] < order'[v]
  {
    hide *;
    AdjustedIs(g, i, order, weights, order', q, adjusted, lo, hi, u);
    AdjustedIs(g, i, order, weights, order', q, adjusted, lo, hi, v);
    BarycenterLess(adjusted[u], adjusted[v]);
    BarycenterIs(adjusted[u], Barycenter(adjusted[u]));
    BarycenterIs(adjusted[v], Barycenter(adjusted[v]));
    MeansMade(adjusted[u]);
    MeansMade(adjusted[v]);
    SortedByMeans(g, i, order, weights, order', q, adjusted, lo, hi, u, v, Barycenter(adjusted[u]), Barycenter(adjusted[v]));
  }

  lemma MeansMade(ws: seq<real>)
    requires ws != [] && Sum(Deviations(ws, Barycenter(ws))) == 0.0
    ensures IsMean(ws, Barycenter(ws))
  {
    hide Sum, Deviations, Barycenter;
  }

  // ---------- sweeps ----------

  ghost predicate AllWeights(g: Layered, order: map<Id, nat>, down: bool, us: set<Id>, weights: map<Id, seq<nat>>) {
    weights.Keys == us && forall u :: u in us ==> WeightsOf(g, order, down, u, weights[u])
  }

  /** order' has layer i sorted by the barycenters of its neighbours in the layer before it, or after it. */
  ghost predicate LayerSorted(g: Layered, i: nat, down: bool, order: map<Id, nat>, order': map<Id, nat>) {
    exists weights, q, adjusted, lo, hi ::
      AllWeights(g, order, down, g.Layer(i), weights) && SortedInto(g, i, order, weights, order', q, adjusted, lo, hi)
  }

  /** The k-th layer of a sweep: from the second one down, or from the last but one up. */
  function LayerAt(height: nat, down: bool, k: nat): nat
    requires k + 1 < height
  {
    if down then k + 1 else height - 2 - k
  }

  /** chain[k + 1] is chain[k] with the k-th layer of the sweep sorted. */
  ghost predicate Chained(g: Layered, down: bool, chain: seq<map<Id, nat>>) {
    0 < |chain| <= (if g.height == 0 then 1 else g.height)
    && forall k: nat :: k + 1 < |chain| ==> LayerSorted(g, LayerAt(g.height, down, k), down, chain[k], chain[k + 1])
  }

  /** order' is order after the sweep number iter: even ones go down, odd ones up, and each sorts all layers but the first on its way. */
  ghost predicate Swept(g: Layered, iter: nat, order: map<Id, nat>, order': map<Id, nat>) {
    exists chain :: Chained(g, iter % 2 == 0, chain) && |chain| == (if g.height == 0 then 1 else g.height)
      && chain[0] == order && chain[|chain| - 1] == order'
  }

  /** One layer of a sweep. */
  method SweepLayer(g: Layered, i: nat, down: bool, order: map<Id, nat>) returns (order': map<Id, nat>)
    requires Drawn(g, order) && i < g.height
    ensures Drawn(g, order') && LayerSorted(g, i, down, order, order')
  {
    hide Drawn, SortedInto, WeightsOf;
    var weights := NeighborWeights(g, order, g.Layer(i), down);
    ghost var q, adjusted, lo, hi;
    order', q, adjusted, lo, hi := SortLayer(g, i, order, weights);
    assert AllWeights(g, order, down, g.Layer(i), weights);
  }

  lemma ChainStarts(g: Layered, down: bool, order: map<Id, nat>)
    ensures Chained(g, down, [order])
  {
  }

  lemma ChainStep(g: Layered, down: bool, chain: seq<map<Id, nat>>, order': map<Id, nat>)
    requires Chained(g, down, chain) && |chain| < g.height
    requires LayerSorted(g, LayerAt(g.height, down, |chain| - 1), down, chain[|chain| - 1], order')
    ensures Chained(g, down, chain + [order'])
  {
    hide LayerSorted;
  }

  lemma ChainEnds(g: Layered, iter: nat, chain: seq<map<Id, nat>>, order: map<Id, nat>, order': map<Id, nat>)
    requires Chained(g, iter % 2 == 0, chain) && |chain| == (if g.height == 0 then 1 else g.height)
    requires chain[0] == order && chain[|chain| - 1] == order'
    ensures Swept(g, iter, order, order')
  {
    hide Chained;
  }

  /** One pass over the layers, downwards by predecessors or upwards by successors. */
  method Sweep(g: Layered, order: map<Id, nat>, iter: nat) returns (order': map<Id, nat>)
    requires Drawn(g, order)
    ensures Drawn(g, order') && Swept(g, iter, order, order')
  {
    hide *;
    order' := order;
    ghost var chain := [order];
    ChainStarts(g, iter % 2 == 0, order);
    if iter % 2 == 0 {
      if g.height > 0 {
        for i := 1 to g.height
          invariant Drawn(g, order') && |chain| == i && chain[0] == order && chain[i - 1] == order' && Chained(g, true, chain)
        {
          LayersDown(g.height, i);
          var sorted := SweepLayer(g, i, true, order');
          ChainStep(g, true, chain, sorted);
          order', chain := sorted, chain + [sorted];
        }
      }
    } else if g.height > 1 {
      var i := g.height - 1;
      while i > 0
        invariant Drawn(g, order') && 0 <= i < g.height && |chain| == g.height - i
        invariant chain[0] == order && chain[|chain| - 1] == order' && Chained(g, false, chain)
      {
        i := i - 1;
        LayersUp(g.height, i);
        var sorted := SweepLayer(g, i, false, order');
        ChainStep(g, false, chain, sorted);
        order', chain := sorted, chain + [sorted];
      }
    }
    ChainEnds(g, iter, chain, order, order');
  }

  lemma LayersDown(height: nat, i: nat)
    requires 0 < i < height
    ensures LayerAt(height, true, i - 1) == i
  {
  }

  lemma LayersUp(height: nat, i: nat)
    requires i + 1 < height
    ensures LayerAt(height, false, height - i - 2) == i
  {
  }

  /** Numbers the nodes of each layer in an arbitrary order. */
  method InitOrder(g: Layered) returns (order: map<Id, nat>)
    requires g.Valid()
    ensures Drawn(g, order)
  {
    hide Layered.Valid, Placed;
    order := map[];
    for i := 0 to g.height
      invariant order.Keys == (set u | u in g.rank && g.rank[u] < i)
      invariant forall j: nat :: j < i ==> Placed(g.Layer(j), order)
    {
      var q := Listing(g.Layer(i));
      ghost var before := order;
      for k := 0 to |q|
        invariant Numbered(before, order, q, k)
      {
        NumberedStep(before, order, q, g.Layer(i), k);
        order := order[q[k] := k];
      }
      NumberedLayer(g, i, before, order, q);
    }
    RanksBelow(g);
  }

  ghost predicate Numbered(before: map<Id, nat>, order: map<Id, nat>, q: seq<Id>, n: nat) {
    && n <= |q| && order.Keys == before.Keys + Upto(q, n)
    && (forall k :: 0 <= k < n ==> q[k] in order && order[q[k]] == k)
    && (forall u :: u in before && u !in q ==> u in order && order[u] == before[u])
  }

  lemma NumberedStep(before: map<Id, nat>, order: map<Id, nat>, q: seq<Id>, us: set<Id>, n: nat)
    requires Numbered(before, order, q, n) && n < |q| && Lists(q, us)
    ensures Numbered(before, order[q[n] := n], q, n + 1)
  {
    UptoStep(q, us, n);
  }

  lemma NumberedLayer(g: Layered, i: nat, before: map<Id, nat>, order: map<Id, nat>, q: seq<Id>)
    requires Lists(q, g.Layer(i)) && Numbered(before, order, q, |q|) && before.Keys == (set u | u in g.rank && g.rank[u] < i)
    requires forall j: nat :: j < i ==> Placed(g.Layer(j), before)
    ensures order.Keys == (set u | u in g.rank && g.rank[u] < i + 1)
    ensures forall j: nat :: j < i + 1 ==> Placed(g.Layer(j), order)
  {
    UptoEnds(q, g.Layer(i));
    assert PlacedAs(q, g.Layer(i), order);
    forall j: nat | j < i ensures Placed(g.Layer(j), order) {
      var r :| PlacedAs(r, g.Layer(j), before);
      forall k | 0 <= k < |r| ensures r[k] in order && order[r[k]] == k {
        assert r[k] in g.Layer(j) && r[k] !in g.Layer(i);
      }
      assert PlacedAs(r, g.Layer(j), order);
    }
  }

  lemma RanksBelow(g: Layered)
    requires g.Valid()
    ensures (set u | u in g.rank && g.rank[u] < g.height) == g.rank.Keys
  {
  }

  /** The number of crossings of an arrangement. */
  ghost function Count(g: Layered, order: map<Id, nat>): nat {
    |Crossings(g, order)|
  }

  /** A start and the arrangements after its sweeps. */
  type Run = seq<map<Id, nat>>

  ghost predicate IsRun(g: Layered, run: Run) {
    |run| > 0 && (forall k :: 0 <= k < |run| ==> Drawn(g, run[k])) && forall k: nat :: k + 1 < |run| ==> Swept(g, k, run[k], run[k + 1])
  }

  /** The k-th sweep has brought fewer crossings than all sweeps before it. */
  ghost predicate Gains(g: Layered, run: Run, k: nat) {
    0 < k < |run| && forall m :: 0 < m < k ==> Count(g, run[k]) < Count(g, run[m])
  }

  /** Three sweeps in a row have brought nothing. */
  ghost predicate Idle(g: Layered, run: Run, n: nat) {
    4 <= n < |run| && !Gains(g, run, n) && !Gains(g, run, n - 1) && !Gains(g, run, n - 2)
  }

  ghost predicate Perfect(g: Layered, run: Run, n: nat) {
    exists k :: 0 < k <= n && k < |run| && Count(g, run[k]) == 0
  }

  /** After n sweeps there is another one. */
  ghost predicate Continues(g: Layered, run: Run, n: nat, maxSweeps: nat) {
    n < maxSweeps && !Idle(g, run, n) && !Perfect(g, run, n)
  }

  /** The start has been swept for as long as it should, and no longer. */
  ghost predicate Complete(g: Layered, run: Run, maxSweeps: nat) {
    |run| > 0 && !Continues(g, run, |run| - 1, maxSweeps) && forall n: nat :: n + 1 < |run| ==> Continues(g, run, n, maxSweeps)
  }

  /** An arrangement that some sweep has led to. */
  ghost predicate Met(trace: seq<Run>, order: map<Id, nat>) {
    exists j, k :: 0 <= j < |trace| && 0 < k < |trace[j]| && trace[j][k] == order
  }

  ghost predicate PerfectMet(g: Layered, trace: seq<Run>, n: nat) {
    exists j :: 0 <= j < n && j < |trace| && Perfect(g, trace[j], |trace[j]|)
  }

  /** The whole order phase: every start is swept until it is complete, and there is another start until one has been met without crossings. */
  ghost predicate Traced(g: Layered, trace: seq<Run>, maxSweeps: nat, restarts: nat) {
    && 0 < |trace| <= restarts + 1 && (forall j :: 0 <= j < |trace| ==> IsRun(g, trace[j]) && Complete(g, trace[j], maxSweeps))
    && !PerfectMet(g, trace, |trace| - 1) && (|trace| == restarts + 1 || PerfectMet(g, trace, |trace|))
  }

  /** best is the best arrangement met so far, with bestCC crossings. */
  ghost predicate Best(g: Layered, trace: seq<Run>, best: map<Id, nat>, bestCC: Option<nat>) {
    match bestCC
    case None => best == map[] && forall o :: !Met(trace, o)
    case Some(cc) => Drawn(g, best) && cc == Count(g, best) && Met(trace, best) && forall o :: Met(trace, o) ==> cc <= Count(g, o)
  }

  // ---------- one start ----------

  predicate Less(cc: nat, best: Option<nat>) {
    best.None? || cc < best.value
  }

  /** current is the least number of crossings that the sweeps of this start have brought. */
  ghost predicate LeastOf(g: Layered, run: Run, current: Option<nat>) {
    match current
    case None => |run| == 1
    case Some(c) => (exists k :: 0 < k < |run| && Count(g, run[k]) == c) && forall k :: 0 < k < |run| ==> c <= Count(g, run[k])
  }

  /** lastBest counts the sweeps since the last gain, that one included. */
  ghost predicate Counts(g: Layered, run: Run, n: nat, lastBest: nat) {
    if n == 0 then lastBest == 0
    else 1 <= lastBest <= n && Gains(g, run, n - lastBest + 1) && forall k :: n - lastBest + 1 < k <= n ==> !Gains(g, run, k)
  }

  /** Where a start stands after n sweeps. */
  ghost predicate Sweeping(g: Layered, trace: seq<Run>, run: Run, n: nat, best: map<Id, nat>, bestCC: Option<nat>,
                           current: Option<nat>, lastBest: nat, maxSweeps: nat)
  {
    && |run| == n + 1 && n <= maxSweeps && IsRun(g, run) && LeastOf(g, run, current) && Counts(g, run, n, lastBest)
    && (forall k: nat :: k < n ==> Continues(g, run, k, maxSweeps)) && Best(g, trace + [run], best, bestCC)
  }

  lemma GainsOn(g: Layered, run: Run, o: map<Id, nat>, k: nat)
    requires k < |run|
    ensures Gains(g, run + [o], k) == Gains(g, run, k)
  {
    var run' := run + [o];
    assert forall m :: 0 <= m < |run| ==> run'[m] == run[m];
  }

  lemma ContinuesOn(g: Layered, run: Run, o: map<Id, nat>, n: nat, maxSweeps: nat)
    requires n < |run|
    ensures Continues(g, run + [o], n, maxSweeps) == Continues(g, run, n, maxSweeps)
  {
    hide Count, Gains;
    var run' := run + [o];
    assert forall m :: 0 <= m < |run| ==> run'[m] == run[m];
    GainsOn(g, run, o, n);
    if n >= 4 {
      GainsOn(g, run, o, n - 1);
      GainsOn(g, run, o, n - 2);
    }
  }

  lemma RunMore(g: Layered, run: Run, o: map<Id, nat>)
    requires IsRun(g, run) && Drawn(g, o) && Swept(g, |run| - 1, run[|run| - 1], o)
    ensures IsRun(g, run + [o])
  {
    hide Drawn, Swept;
  }

  /** A sweep gains exactly if it has fewer crossings than the least so far. */
  lemma GainsNow(g: Layered, run: Run, o: map<Id, nat>, current: Option<nat>)
    requires |run| > 0 && LeastOf(g, run, current)
    ensures Gains(g, run + [o], |run|) <==> Less(Count(g, o), current)
    ensures LeastOf(g, run + [o], if Less(Count(g, o), current) then Some(Count(g, o)) else current)
  {
    hide Count;
    var run' := run + [o];
    assert run'[|run|] == o && forall m :: 0 <= m < |run| ==> run'[m] == run[m];
    if current.Some? {
      var k :| 0 < k < |run| && Count(g, run[k]) == current.value;
      assert Count(g, run'[k]) == current.value;
    }
    assert Count(g, run'[|run|]) == Count(g, o);
  }

  lemma CountsOn(g: Layered, run: Run, o: map<Id, nat>, lastBest: nat, gains: bool)
    requires |run| > 0 && Counts(g, run, |run| - 1, lastBest) && gains == Gains(g, run + [o], |run|)
    ensures Counts(g, run + [o], |run|, if gains then 1 else lastBest + 1)
  {
    hide Gains;
    forall k | 0 <= k < |run| ensures Gains(g, run + [o], k) == Gains(g, run, k) {
      GainsOn(g, run, o, k);
    }
    if |run| == 1 {
      FirstGains(g, run + [o]);
    }
  }

  lemma FirstGains(g: Layered, run: Run)
    requires |run| == 2
    ensures Gains(g, run, 1)
  {
  }

  /** What has been met: the new arrangement as well. */
  lemma MetMore(trace: seq<Run>, run: Run, o: map<Id, nat>, x: map<Id, nat>)
    requires |run| > 0
    ensures Met(trace + [run + [o]], x) <==> Met(trace + [run], x) || x == o
  {
    var t, t', run' := trace + [run], trace + [run + [o]], run + [o];
    assert forall j :: 0 <= j < |trace| ==> t[j] == trace[j] && t'[j] == trace[j];
    assert t[|trace|] == run && t'[|trace|] == run' && run'[|run|] == o && forall k :: 0 <= k < |run| ==> run'[k] == run[k];
    if Met(t, x) {
      var j, k :| 0 <= j < |t| && 0 < k < |t[j]| && t[j][k] == x;
      assert t'[j][k] == x;
    }
    if x == o {
      assert t'[|trace|][|run|] == x;
    }
    if Met(t', x) {
      var j, k :| 0 <= j < |t'| && 0 < k < |t'[j]| && t'[j][k] == x;
      assert x != o ==> k < |t[j]| && t[j][k] == x;
    }
  }

  /** A start alone adds nothing to what has been met. */
  lemma MetStart(trace: seq<Run>, o: map<Id, nat>, x: map<Id, nat>)
    ensures Met(trace + [[o]], x) <==> Met(trace, x)
  {
    var t := trace + [[o]];
    assert t[|trace|] == [o] && forall j :: 0 <= j < |trace| ==> t[j] == trace[j];
    if Met(trace, x) {
      var j, k :| 0 <= j < |trace| && 0 < k < |trace[j]| && trace[j][k] == x;
      assert t[j][k] == x;
    }
  }

  lemma BestMore(g: Layered, trace: seq<Run>, run: Run, o: map<Id, nat>, best: map<Id, nat>, bestCC: Option<nat>)
    requires |run| > 0 && Best(g, trace + [run], best, bestCC) && Drawn(g, o)
    ensures Less(Count(g, o), bestCC) ==> Best(g, trace + [run + [o]], o, Some(Count(g, o)))
    ensures !Less(Count(g, o), bestCC) ==> Best(g, trace + [run + [o]], best, bestCC)
  {
    hide Drawn, Count, Met;
    forall x ensures Met(trace + [run + [o]], x) <==> Met(trace + [run], x) || x == o {
      MetMore(trace, run, o, x);
    }
  }

  /** The best of all starts is at least as good as that of this one. */
  lemma BestBelow(g: Layered, trace: seq<Run>, run: Run, best: map<Id, nat>, bestCC: Option<nat>, current: Option<nat>)
    requires Best(g, trace + [run], best, bestCC) && LeastOf(g, run, current) && current.Some?
    ensures bestCC.Some? && bestCC.value <= current.value
  {
    hide Count, Drawn;
    var k :| 0 < k < |run| && Count(g, run[k]) == current.value;
    assert (trace + [run])[|trace|][k] == run[k];
    assert Met(trace + [run], run[k]);
  }

  lemma SweepingStarts(g: Layered, trace: seq<Run>, order: map<Id, nat>, best: map<Id, nat>, bestCC: Option<nat>, maxSweeps: nat)
    requires Drawn(g, order) && Best(g, trace, best, bestCC)
    ensures Sweeping(g, trace, [order], 0, best, bestCC, None, 0, maxSweeps)
  {
    hide Drawn, Count, Met;
    forall x ensures Met(trace + [[order]], x) <==> Met(trace, x) {
      MetStart(trace, order, x);
    }
  }

  /** The code's test for another sweep is right. */
  lemma GoesOn(g: Layered, trace: seq<Run>, run: Run, n: nat, best: map<Id, nat>, bestCC: Option<nat>, current: Option<nat>, lastBest: nat,
               maxSweeps: nat)
    requires Sweeping(g, trace, run, n, best, bestCC, current, lastBest, maxSweeps)
    ensures Continues(g, run, n, maxSweeps) <==> lastBest < 4 && n < maxSweeps && current != Some(0)
  {
    hide Count, Gains, IsRun, Best;
    assert Perfect(g, run, n) <==> current == Some(0);
    assert Idle(g, run, n) <==> lastBest >= 4;
  }

  lemma SweepingStep(g: Layered, trace: seq<Run>, run: Run, n: nat, best: map<Id, nat>, bestCC: Option<nat>, current: Option<nat>, lastBest: nat,
                     maxSweeps: nat, o: map<Id, nat>, best': map<Id, nat>, bestCC': Option<nat>)
    requires Sweeping(g, trace, run, n, best, bestCC, current, lastBest, maxSweeps) && Continues(g, run, n, maxSweeps)
    requires Drawn(g, o) && Swept(g, n, run[n], o)
    requires var cc := Count(g, o);
      if Less(cc, current) && Less(cc, bestCC) then best' == o && bestCC' == Some(cc) else best' == best && bestCC' == bestCC
    ensures var cc, gains := Count(g, o), Less(Count(g, o), current);
      Sweeping(g, trace, run + [o], n + 1, best', bestCC', if gains then Some(cc) else current, if gains then 1 else lastBest + 1, maxSweeps)
  {
    hide *;
    SweepingParts(g, trace, run, n, best, bestCC, current, lastBest, maxSweeps);
    RunMore(g, run, o);
    GainsNow(g, run, o, current);
    CountsOn(g, run, o, lastBest, Less(Count(g, o), current));
    forall k: nat | k < n + 1 ensures Continues(g, run + [o], k, maxSweeps) {
      ContinuesOn(g, run, o, k, maxSweeps);
    }
    BestMore(g, trace, run, o, best, bestCC);
    if current.Some? {
      BestBelow(g, trace, run, best, bestCC, current);
      LessOn(Count(g, o), bestCC, current);
    } else {
      LessNone(Count(g, o));
    }
    ContinuesMeans(g, run, n, maxSweeps);
    SweepingMade(g, trace, run + [o], n + 1, best', bestCC', if Less(Count(g, o), current) then Some(Count(g, o)) else current,
      if Less(Count(g, o), current) then 1 else lastBest + 1, maxSweeps);
  }

  lemma LessOn(cc: nat, a: Option<nat>, b: Option<nat>)
    requires a.Some? && b.Some? && a.value <= b.value
    ensures Less(cc, a) ==> Less(cc, b)
  {
  }

  lemma LessNone(cc: nat)
    ensures Less(cc, None)
  {
  }

  lemma ContinuesMeans(g: Layered, run: Run, n: nat, maxSweeps: nat)
    requires Continues(g, run, n, maxSweeps)
    ensures n < maxSweeps
  {
  }

  lemma SweepingParts(g: Layered, trace: seq<Run>, run: Run, n: nat, best: map<Id, nat>, bestCC: Option<nat>, current: Option<nat>, lastBest: nat,
                      maxSweeps: nat)
    requires Sweeping(g, trace, run, n, best, bestCC, current, lastBest, maxSweeps)
    ensures |run| == n + 1 && n <= maxSweeps && IsRun(g, run) && LeastOf(g, run, current) && Counts(g, run, n, lastBest)
    ensures (forall k: nat :: k < n ==> Continues(g, run, k, maxSweeps)) && Best(g, trace + [run], best, bestCC)
  {
    hide IsRun, LeastOf, Counts, Continues, Best;
  }

  lemma SweepingMade(g: Layered, trace: seq<Run>, run: Run, n: nat, best: map<Id, nat>, bestCC: Option<nat>, current: Option<nat>, lastBest: nat,
                     maxSweeps: nat)
    requires |run| == n + 1 && n <= maxSweeps && IsRun(g, run) && LeastOf(g, run, current) && Counts(g, run, n, lastBest)
    requires (forall k: nat :: k < n ==> Continues(g, run, k, maxSweeps)) && Best(g, trace + [run], best, bestCC)
    ensures Sweeping(g, trace, run, n, best, bestCC, current, lastBest, maxSweeps)
  {
    hide IsRun, LeastOf, Counts, Continues, Best;
  }

  /** The loop over the sweeps of one start. */
  method SweepAll(g: Layered, start: map<Id, nat>, maxSweeps: nat, best0: map<Id, nat>, bestCC0: Option<nat>, ghost trace: seq<Run>)
    returns (best: map<Id, nat>, bestCC: Option<nat>, order: map<Id, nat>, ghost run: Run)
    requires Drawn(g, start) && Best(g, trace, best0, bestCC0)
    ensures IsRun(g, run) && Complete(g, run, maxSweeps) && Best(g, trace + [run], best, bestCC)
    ensures run[0] == start && run[|run| - 1] == order && Drawn(g, order)
  {
    hide *;
    best, bestCC, order, run := best0, bestCC0, start, [start];
    var current: Option<nat> := None;
    var i, lastBest := 0, 0;
    SweepingStarts(g, trace, start, best, bestCC, maxSweeps);
    while lastBest < 4 && i < maxSweeps && current != Some(0)
      invariant Sweeping(g, trace, run, i, best, bestCC, current, lastBest, maxSweeps)
      invariant |run| == i + 1 && run[0] == start && run[i] == order && Drawn(g, order)
      decreases maxSweeps - i
    {
      GoesOn(g, trace, run, i, best, bestCC, current, lastBest, maxSweeps);
      ghost var bestWas, bestCCWas, currentWas, lastWas := best, bestCC, current, lastBest;
      order := Sweep(g, order, i);
      var cc := CrossCount(g, order);
      CountIs(g, order, cc);
      if Less(cc, current) {
        lastBest := 0;
        current := Some(cc);
        if Less(cc, bestCC) {
          best := order;
          bestCC := Some(cc);
        }
      }
      SweepingStep(g, trace, run, i, bestWas, bestCCWas, currentWas, lastWas, maxSweeps, order, best, bestCC);
      run := run + [order];
      i := i + 1;
      lastBest := lastBest + 1;
    }
    GoesOn(g, trace, run, i, best, bestCC, current, lastBest, maxSweeps);
    SweepingParts(g, trace, run, i, best, bestCC, current, lastBest, maxSweeps);
    IsComplete(g, run, i, maxSweeps);
  }

  lemma IsComplete(g: Layered, run: Run, n: nat, maxSweeps: nat)
    requires |run| == n + 1 && !Continues(g, run, n, maxSweeps) && forall k: nat :: k < n ==> Continues(g, run, k, maxSweeps)
    ensures Complete(g, run, maxSweeps)
  {
    hide Continues;
  }

  lemma CountIs(g: Layered, order: map<Id, nat>, cc: nat)
    requires cc == |Crossings(g, order)|
    ensures cc == Count(g, order)
  {
  }

  // ---------- all starts ----------

  /** Whether the last start of the trace was the last one needed. */
  lemma PerfectIs(g: Layered, trace: seq<Run>, best: map<Id, nat>, bestCC: Option<nat>)
    requires Best(g, trace, best, bestCC)
    ensures bestCC == Some(0) <==> PerfectMet(g, trace, |trace|)
  {
    hide Drawn, Count;
    if bestCC == Some(0) {
      var j, k :| 0 <= j < |trace| && 0 < k < |trace[j]| && trace[j][k] == best;
      assert Count(g, trace[j][k]) == 0;
      assert Perfect(g, trace[j], |trace[j]|);
    }
    if PerfectMet(g, trace, |trace|) {
      var j :| 0 <= j < |trace| && Perfect(g, trace[j], |trace[j]|);
      var k :| 0 < k <= |trace[j]| && k < |trace[j]| && Count(g, trace[j][k]) == 0;
      assert Met(trace, trace[j][k]);
    }
  }

  /** The starts so far. */
  ghost predicate Starting(g: Layered, trace: seq<Run>, maxSweeps: nat, j: nat, restarts: nat) {
    && |trace| == j <= restarts + 1 && (forall j :: 0 <= j < |trace| ==> IsRun(g, trace[j]) && Complete(g, trace[j], maxSweeps))
    && (|trace| > 0 ==> !PerfectMet(g, trace, |trace| - 1))
  }

  lemma NextStart(g: Layered, trace: seq<Run>, maxSweeps: nat, j: nat, restarts: nat, run: Run)
    requires Starting(g, trace, maxSweeps, j, restarts) && j < restarts + 1 && !PerfectMet(g, trace, |trace|)
    requires IsRun(g, run) && Complete(g, run, maxSweeps)
    ensures Starting(g, trace + [run], maxSweeps, j + 1, restarts)
  {
    hide IsRun, Complete, Perfect;
    assert forall j :: 0 <= j < |trace| ==> (trace + [run])[j] == trace[j];
  }

  lemma IsTraced(g: Layered, trace: seq<Run>, maxSweeps: nat, j: nat, restarts: nat)
    requires Starting(g, trace, maxSweeps, j, restarts) && j > 0 && (j == restarts + 1 || PerfectMet(g, trace, |trace|))
    ensures Traced(g, trace, maxSweeps, restarts)
  {
    hide IsRun, Complete, PerfectMet;
  }

  /** Without sweeps nothing is met; with sweeps, every start is swept once at least. */
  lemma SomethingMet(g: Layered, trace: seq<Run>, maxSweeps: nat, restarts: nat)
    requires Traced(g, trace, maxSweeps, restarts)
    ensures maxSweeps > 0 ==> exists o :: Met(trace, o)
    ensures maxSweeps == 0 ==> (forall o :: !Met(trace, o)) && forall j :: 0 <= j < |trace| ==> |trace[j]| == 1
  {
    hide IsRun, PerfectMet, Count, Gains;
    forall j | 0 <= j < |trace| ensures maxSweeps > 0 <==> |trace[j]| > 1 {
      assert Complete(g, trace[j], maxSweeps);
      assert |trace[j]| > 1 ==> Continues(g, trace[j], 0, maxSweeps);
    }
    if maxSweeps > 0 {
      assert Met(trace, trace[0][1]);
    }
  }

  /** The result is the best arrangement that any sweep has led to, or without sweeps the last start. */
  ghost predicate Outcome(g: Layered, trace: seq<Run>, maxSweeps: nat, order: map<Id, nat>, orderCC: Option<nat>) {
    if maxSweeps == 0 then orderCC == None && |trace| > 0 && trace[|trace| - 1] == [order]
    else orderCC == Some(Count(g, order)) && Met(trace, order) && forall o :: Met(trace, o) ==> Count(g, order) <= Count(g, o)
  }

  /** The order phase: from an arbitrary start, and again for each restart, sweeps until three in a row have brought nothing. The
      best arrangement met is the result. orderCC is None for the initial Number.MAX_VALUE. */
  method Order(g: Layered, maxSweeps: nat, restarts: nat) returns (order: map<Id, nat>, orderCC: Option<nat>, ghost trace: seq<Run>)
    requires g.Valid()
    ensures Drawn(g, order) && Traced(g, trace, maxSweeps, restarts) && Outcome(g, trace, maxSweeps, order, orderCC)
  {
    hide *;
    var best: map<Id, nat> := map[];
    orderCC, trace := None, [];
    NothingMet(g, maxSweeps, restarts);
    order := map[];
    var j := 0;
    PerfectIs(g, trace, best, orderCC);
    while j < restarts + 1 && orderCC != Some(0)
      invariant Starting(g, trace, maxSweeps, j, restarts) && Best(g, trace, best, orderCC) && |trace| == j <= restarts + 1
      invariant orderCC == Some(0) <==> PerfectMet(g, trace, |trace|)
      invariant j == 0 ==> orderCC == None
      invariant j > 0 ==> Drawn(g, order) && trace[j - 1] != [] && trace[j - 1][|trace[j - 1]| - 1] == order
      decreases restarts + 1 - j
    {
      var start := InitOrder(g);
      ghost var run;
      best, orderCC, order, run := SweepAll(g, start, maxSweeps, best, orderCC, trace);
      NextStart(g, trace, maxSweeps, j, restarts, run);
      RunNotEmpty(g, run);
      trace := trace + [run];
      PerfectIs(g, trace, best, orderCC);
      j := j + 1;
    }
    IsTraced(g, trace, maxSweeps, j, restarts);
    SomethingMet(g, trace, maxSweeps, restarts);
    OutcomeIs(g, trace, maxSweeps, order, best, orderCC);
    order := order + best;
  }

  lemma RunNotEmpty(g: Layered, run: Run)
    requires IsRun(g, run)
    ensures run != []
  {
  }

  lemma NothingMet(g: Layered, maxSweeps: nat, restarts: nat)
    ensures Best(g, [], map[], None) && Starting(g, [], maxSweeps, 0, restarts)
  {
  }

  lemma OutcomeIs(g: Layered, trace: seq<Run>, maxSweeps: nat, order: map<Id, nat>, best: map<Id, nat>, bestCC: Option<nat>)
    requires Best(g, trace, best, bestCC) && Drawn(g, order) && |trace| > 0
    requires trace[|trace| - 1] != [] && trace[|trace| - 1][|trace[|trace| - 1]| - 1] == order
    requires maxSweeps > 0 ==> exists o :: Met(trace, o)
    requires maxSweeps == 0 ==> (forall o :: !Met(trace, o)) && forall j :: 0 <= j < |trace| ==> |trace[j]| == 1
    ensures Drawn(g, order + best) && Outcome(g, trace, maxSweeps, order + best, bestCC)
  {
    hide Drawn, Count, Met;
    Overlaid(g, order, best);
    if maxSweeps == 0 {
      assert bestCC.None?;
    }
  }

  /** Writing the best orders back. */
  lemma Overlaid(g: Layered, order: map<Id, nat>, best: map<Id, nat>)
    requires Drawn(g, order)
    ensures best == map[] ==> order + best == order
    ensures Drawn(g, best) ==> order + best == best
  {
    hide Placed;
  }
}
