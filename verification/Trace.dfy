/** The visibility of spans under service filters: three reference counters on each span. */
module Traces {
  import opened Base
  import opened Sums

  type SpanId = string

  datatype Span = Span(inFilters: int, openParents: int, openChildren: int, shown: bool, highlighted: bool)

  type Spans = map<SpanId, Span>

  // ---------- what the counters mean ----------

  /** How often x occurs in q. */
  function Occurrences(q: seq<SpanId>, x: SpanId): nat {
    if q == [] then 0 else Occurrences(q[..|q| - 1], x) + if q[|q| - 1] == x then 1 else 0
  }

  function InFilters(spans: Spans, x: SpanId): int {
    if x in spans then spans[x].inFilters else 0
  }

  function ListOf(lists: map<SpanId, seq<SpanId>>, x: SpanId): seq<SpanId> {
    if x in lists then lists[x] else []
  }

  ghost function Opens(spans: Spans, lists: map<SpanId, seq<SpanId>>, x: SpanId): SpanId -> int {
    p => InFilters(spans, p) * Occurrences(ListOf(lists, p), x)
  }

  /** The sum of inFilters over the spans in whose list x occurs. */
  ghost function OpenBy(spans: Spans, lists: map<SpanId, seq<SpanId>>, x: SpanId): int {
    Sum(spans.Keys, Opens(spans, lists, x))
  }

  function Members(spansByService: map<string, set<SpanId>>, service: string): set<SpanId> {
    if service in spansByService then spansByService[service] else {}
  }

  function Active(filters: map<string, nat>, service: string): nat {
    if service in filters then filters[service] else 0
  }

  ghost function Selects(filters: map<string, nat>, spansByService: map<string, set<SpanId>>, x: SpanId): string -> int {
    service => if x in Members(spansByService, service) then Active(filters, service) else 0
  }

  /** How often span x is selected by the active filters. */
  ghost function Selected(filters: map<string, nat>, spansByService: map<string, set<SpanId>>, x: SpanId): int {
    Sum(filters.Keys, Selects(filters, spansByService, x))
  }

  /** One of the three counters is positive. */
  predicate Held(s: Span) {
    s.inFilters > 0 || s.openChildren > 0 || s.openParents > 0
  }

  // ---------- a counter list ----------

  /** Adds step to the counter of each span of q, as often as it occurs. */
  ghost predicate CountedP(spans: Spans, spans': Spans, q: seq<SpanId>, n: nat, step: int) {
    n <= |q| && spans'.Keys == spans.Keys &&
    forall x :: x in spans ==> spans'[x] == spans[x].(openParents := spans[x].openParents + step * Occurrences(q[..n], x))
  }

  ghost predicate CountedC(spans: Spans, spans': Spans, q: seq<SpanId>, n: nat, step: int) {
    n <= |q| && spans'.Keys == spans.Keys &&
    forall x :: x in spans ==> spans'[x] == spans[x].(openChildren := spans[x].openChildren + step * Occurrences(q[..n], x))
  }

  method CountChildren(spans: Spans, q: seq<SpanId>, step: int) returns (spans': Spans, touched: set<SpanId>)
    requires forall i :: 0 <= i < |q| ==> q[i] in spans
    ensures CountedP(spans, spans', q, |q|, step) && touched == (set x | x in q)
  {
    spans', touched := spans, {};
    for i := 0 to |q|
      invariant CountedP(spans, spans', q, i, step) && touched == (set x | x in q[..i])
    {
      assert q[..i + 1][..i] == q[..i];
      CountedPStep(spans, spans', q, i, step);
      touched := touched + {q[i]};
      spans' := spans'[q[i] := spans'[q[i]].(openParents := spans'[q[i]].openParents + step)];
    }
    assert q[..|q|] == q;
  }

  lemma CountedPStep(spans: Spans, spans': Spans, q: seq<SpanId>, i: nat, step: int)
    requires CountedP(spans, spans', q, i, step) && i < |q| && q[i] in spans
    ensures CountedP(spans, spans'[q[i] := spans'[q[i]].(openParents := spans'[q[i]].openParents + step)], q, i + 1, step)
  {
    assert q[..i + 1][..i] == q[..i];
    forall x | x in spans ensures step * Occurrences(q[..i + 1], x) == step * Occurrences(q[..i], x) + if x == q[i] then step else 0 {
    }
  }

  method CountParents(spans: Spans, q: seq<SpanId>, step: int) returns (spans': Spans, touched: set<SpanId>)
    requires forall i :: 0 <= i < |q| ==> q[i] in spans
    ensures CountedC(spans, spans', q, |q|, step) && touched == (set x | x in q)
  {
    spans', touched := spans, {};
    for i := 0 to |q|
      invariant CountedC(spans, spans', q, i, step) && touched == (set x | x in q[..i])
    {
      CountedCStep(spans, spans', q, i, step);
      touched := touched + {q[i]};
      spans' := spans'[q[i] := spans'[q[i]].(openChildren := spans'[q[i]].openChildren + step)];
    }
    assert q[..|q|] == q;
  }

  lemma CountedCStep(spans: Spans, spans': Spans, q: seq<SpanId>, i: nat, step: int)
    requires CountedC(spans, spans', q, i, step) && i < |q| && q[i] in spans
    ensures CountedC(spans, spans'[q[i] := spans'[q[i]].(openChildren := spans'[q[i]].openChildren + step)], q, i + 1, step)
  {
    assert q[..i + 1][..i] == q[..i];
    forall x | x in spans ensures step * Occurrences(q[..i + 1], x) == step * Occurrences(q[..i], x) + if x == q[i] then step else 0 {
    }
  }

  // ---------- expanding and collapsing ----------

  ghost predicate Closed(spans: Spans, lists: map<SpanId, seq<SpanId>>) {
    forall x, i :: x in lists && 0 <= i < |lists[x]| ==> lists[x][i] in spans
  }

  /** openParents and openChildren are the sums they stand for, and nothing is selected less than never. */
  ghost predicate Counting(spans: Spans, children: map<SpanId, seq<SpanId>>, parents: map<SpanId, seq<SpanId>>) {
    forall x :: x in spans ==>
      spans[x].inFilters >= 0 && spans[x].openParents == OpenBy(spans, children, x) && spans[x].openChildren == OpenBy(spans, parents, x)
  }

  lemma Times(a: int, b: int, k: int, n: int)
    requires b == a + k
    ensures b * n == a * n + k * n
  {
  }

  /** A span whose filter count is changed by k. */
  lemma OpenByStep(spans: Spans, spans': Spans, lists: map<SpanId, seq<SpanId>>, p: SpanId, k: int, x: SpanId)
    requires p in spans && spans'.Keys == spans.Keys && spans'[p].inFilters == spans[p].inFilters + k
    requires forall y :: y in spans && y != p ==> spans'[y].inFilters == spans[y].inFilters
    ensures OpenBy(spans', lists, x) == OpenBy(spans, lists, x) + k * Occurrences(ListOf(lists, p), x)
  {
    hide Occurrences, ListOf, Sum;
    Times(InFilters(spans, p), InFilters(spans', p), k, Occurrences(ListOf(lists, p), x));
    forall y | y in spans && y != p ensures InFilters(spans', y) == InFilters(spans, y) {
    }
    SumPoint(spans.Keys, Opens(spans, lists, x), Opens(spans', lists, x), p);
  }

  lemma OpenByNotNegative(spans: Spans, lists: map<SpanId, seq<SpanId>>, x: SpanId)
    requires forall y :: y in spans ==> spans[y].inFilters >= 0
    ensures OpenBy(spans, lists, x) >= 0
  {
    hide Occurrences, ListOf, Sum;
    forall y | y in spans.Keys ensures Opens(spans, lists, x)(y) >= 0 {
      assert InFilters(spans, y) >= 0;
    }
    SumPositive(spans.Keys, Opens(spans, lists, x));
  }

  lemma {:induction false} OccursIn(q: seq<SpanId>, x: SpanId)
    ensures Occurrences(q, x) > 0 <==> x in q
  {
    if q != [] {
      OccursIn(q[..|q| - 1], x);
      assert q == q[..|q| - 1] + [q[|q| - 1]];
    }
  }

  /** Span p with its filter count changed by step, and the counters of the spans in its lists with it. */
  ghost predicate Moved(spans: Spans, spans': Spans, children: map<SpanId, seq<SpanId>>, parents: map<SpanId, seq<SpanId>>, p: SpanId, step: int) {
    p in spans && spans'.Keys == spans.Keys &&
    forall x :: x in spans ==>
      && spans'[x].inFilters == spans[x].inFilters + (if x == p then step else 0)
      && spans'[x].openParents == spans[x].openParents + step * Occurrences(ListOf(children, p), x)
      && spans'[x].openChildren == spans[x].openChildren + step * Occurrences(ListOf(parents, p), x)
  }

  lemma MovedCounting(spans: Spans, spans': Spans, children: map<SpanId, seq<SpanId>>, parents: map<SpanId, seq<SpanId>>, p: SpanId, step: int)
    requires Counting(spans, children, parents) && Moved(spans, spans', children, parents, p, step) && spans[p].inFilters + step >= 0
    ensures Counting(spans', children, parents)
  {
    hide Occurrences, OpenBy;
    forall x | x in spans'
      ensures spans'[x].openParents == OpenBy(spans', children, x) && spans'[x].openChildren == OpenBy(spans', parents, x)
    {
      OpenByStep(spans, spans', children, p, step, x);
      OpenByStep(spans, spans', parents, p, step, x);
    }
  }

  lemma CountersNotNegative(spans: Spans, children: map<SpanId, seq<SpanId>>, parents: map<SpanId, seq<SpanId>>)
    requires Counting(spans, children, parents)
    ensures forall x :: x in spans ==> spans[x].inFilters >= 0 && spans[x].openParents >= 0 && spans[x].openChildren >= 0
  {
    hide OpenBy;
    forall x | x in spans ensures spans[x].openParents >= 0 && spans[x].openChildren >= 0 {
      OpenByNotNegative(spans, children, x);
      OpenByNotNegative(spans, parents, x);
    }
  }

  /** The spans of `hidden` are shown only if held; those that are held but not shown are pending. */
  ghost predicate ShownSoon(spans: Spans, hidden: set<SpanId>, pending: set<SpanId>) {
    && (forall x :: x in hidden && x in spans ==> (spans[x].shown ==> Held(spans[x])) && (Held(spans[x]) ==> spans[x].shown || x in pending))
    && (forall x :: x in pending ==> x in spans && Held(spans[x]))
  }

  /** The spans of `hidden` are shown if held; those that are shown but not held are pending. */
  ghost predicate HiddenSoon(spans: Spans, hidden: set<SpanId>, pending: set<SpanId>) {
    && (forall x :: x in hidden && x in spans ==> (Held(spans[x]) ==> spans[x].shown) && (spans[x].shown ==> Held(spans[x]) || x in pending))
    && pending <= spans.Keys
  }

  ghost predicate Highlights(spans: Spans) {
    forall x :: x in spans ==> (spans[x].highlighted <==> spans[x].inFilters > 0)
  }

  /** One span selected once more. */
  method ExpandOne(spans: Spans, children: map<SpanId, seq<SpanId>>, parents: map<SpanId, seq<SpanId>>, p: SpanId, toShow: set<SpanId>,
                   ghost hidden: set<SpanId>)
    returns (spans': Spans, toShow': set<SpanId>)
    requires p in spans && Closed(spans, children) && Closed(spans, parents) && Counting(spans, children, parents)
    requires ShownSoon(spans, hidden, toShow) && Highlights(spans)
    ensures Moved(spans, spans', children, parents, p, 1) && Counting(spans', children, parents)
    ensures ShownSoon(spans', hidden, toShow') && Highlights(spans')
  {
    hide Counting, ShownSoon, Closed, Highlights, Moved, Adjusted, CountedP, CountedC;
    var t, q, r := spans[p], ListOf(children, p), ListOf(parents, p);
    var s := Span(t.inFilters + 1, t.openParents, t.openChildren, t.shown || t.inFilters == 0, t.highlighted || t.inFilters == 0);
    ListClosed(spans, children, p);
    ListClosed(spans, parents, p);
    var s2, below := CountChildren(spans[p := s], q, 1);
    CountedKeys(spans[p := s], s2, q, 1);
    var above;
    spans', above := CountParents(s2, r, 1);
    toShow' := toShow + below + above;
    AdjustedNow(spans, s2, spans', q, r, p, s, 1);
    AdjustedMoves(spans, spans', children, parents, p, s, 1);
    CountersNotNegative(spans, children, parents);
    MovedCounting(spans, spans', children, parents, p, 1);
    ExpandShown(spans, spans', q, r, p, s, toShow, toShow', hidden);
  }

  lemma CountedKeys(spans: Spans, spans': Spans, q: seq<SpanId>, step: int)
    requires CountedP(spans, spans', q, |q|, step)
    ensures spans'.Keys == spans.Keys
  {
    hide Occurrences;
  }

  lemma ListClosed(spans: Spans, lists: map<SpanId, seq<SpanId>>, p: SpanId)
    requires Closed(spans, lists)
    ensures forall i :: 0 <= i < |ListOf(lists, p)| ==> ListOf(lists, p)[i] in spans
  {
  }

  /** Span p is now s, and the counters of the spans in its lists have moved by step. */
  ghost predicate Adjusted(spans: Spans, spans': Spans, q: seq<SpanId>, r: seq<SpanId>, p: SpanId, s: Span, step: int) {
    spans'.Keys == spans.Keys &&
    forall x :: x in spans ==>
      var t := if x == p then s else spans[x];
      spans'[x] == t.(openParents := t.openParents + step * Occurrences(q, x), openChildren := t.openChildren + step * Occurrences(r, x))
  }

  lemma AdjustedNow(spans: Spans, s2: Spans, s3: Spans, q: seq<SpanId>, r: seq<SpanId>, p: SpanId, s: Span, step: int)
    requires p in spans && CountedP(spans[p := s], s2, q, |q|, step) && CountedC(s2, s3, r, |r|, step)
    ensures Adjusted(spans, s3, q, r, p, s, step)
  {
    hide *;
    CountedKeys(spans[p := s], s2, q, step);
    forall x | x in spans
      ensures x in s3
      ensures var t := if x == p then s else spans[x];
        s3[x] == t.(openParents := t.openParents + step * Occurrences(q, x), openChildren := t.openChildren + step * Occurrences(r, x))
    {
      CountedPAt(spans[p := s], s2, q, step, x);
      CountedCAt(s2, s3, r, step, x);
    }
    CountedKeysC(s2, s3, r, step);
    SameKeys(spans, p, s);
    AdjustedMade(spans, s3, q, r, p, s, step);
  }

  lemma SameKeys(spans: Spans, p: SpanId, s: Span)
    requires p in spans
    ensures spans[p := s].Keys == spans.Keys
  {
  }

  lemma CountedKeysC(spans: Spans, spans': Spans, q: seq<SpanId>, step: int)
    requires CountedC(spans, spans', q, |q|, step)
    ensures spans'.Keys == spans.Keys
  {
    hide Occurrences;
  }

  lemma CountedPAt(spans: Spans, spans': Spans, q: seq<SpanId>, step: int, x: SpanId)
    requires CountedP(spans, spans', q, |q|, step) && x in spans
    ensures x in spans' && spans'[x] == spans[x].(openParents := spans[x].openParents + step * Occurrences(q, x))
  {
    assert q[..|q|] == q;
    hide Occurrences;
  }

  lemma CountedCAt(spans: Spans, spans': Spans, q: seq<SpanId>, step: int, x: SpanId)
    requires CountedC(spans, spans', q, |q|, step) && x in spans
    ensures x in spans' && spans'[x] == spans[x].(openChildren := spans[x].openChildren + step * Occurrences(q, x))
  {
    assert q[..|q|] == q;
    hide Occurrences;
  }

  lemma AdjustedMade(spans: Spans, spans': Spans, q: seq<SpanId>, r: seq<SpanId>, p: SpanId, s: Span, step: int)
    requires spans'.Keys == spans.Keys
    requires forall x :: x in spans ==>
      var t := if x == p then s else spans[x];
      spans'[x] == t.(openParents := t.openParents + step * Occurrences(q, x), openChildren := t.openChildren + step * Occurrences(r, x))
    ensures Adjusted(spans, spans', q, r, p, s, step)
  {
    hide Occurrences;
  }

  lemma AdjustedMoves(spans: Spans, spans': Spans, children: map<SpanId, seq<SpanId>>, parents: map<SpanId, seq<SpanId>>, p: SpanId, s: Span, step: int)
    requires p in spans && s.inFilters == spans[p].inFilters + step && s.openParents == spans[p].openParents && s.openChildren == spans[p].openChildren
    requires Adjusted(spans, spans', ListOf(children, p), ListOf(parents, p), p, s, step)
    ensures Moved(spans, spans', children, parents, p, step)
  {
    hide Occurrences, ListOf;
  }

  lemma ExpandShown(spans: Spans, spans': Spans, q: seq<SpanId>, r: seq<SpanId>, p: SpanId, s: Span,
                    toShow: set<SpanId>, toShow': set<SpanId>, hidden: set<SpanId>)
    requires p in spans && ShownSoon(spans, hidden, toShow) && Highlights(spans) && Adjusted(spans, spans', q, r, p, s, 1)
    requires forall x :: x in spans ==> spans[x].inFilters >= 0 && spans[x].openParents >= 0 && spans[x].openChildren >= 0
    requires var t := spans[p]; s == Span(t.inFilters + 1, t.openParents, t.openChildren, t.shown || t.inFilters == 0, t.highlighted || t.inFilters == 0)
    requires (forall x :: x in q ==> x in spans) && (forall x :: x in r ==> x in spans)
    requires forall x :: x in toShow' <==> x in toShow || x in q || x in r
    ensures ShownSoon(spans', hidden, toShow') && Highlights(spans')
  {
    forall x | x in spans ensures (Occurrences(q, x) > 0 <==> x in q) && (Occurrences(r, x) > 0 <==> x in r) {
      OccursIn(q, x);
      OccursIn(r, x);
    }
    hide Occurrences;
  }

  /** One span selected once less; it is hidden if nothing else holds it. */
  method CollapseOne(spans: Spans, children: map<SpanId, seq<SpanId>>, parents: map<SpanId, seq<SpanId>>, p: SpanId, toHide: set<SpanId>,
                     ghost hidden: set<SpanId>)
    returns (spans': Spans, toHide': set<SpanId>)
    requires p in spans && spans[p].inFilters > 0
    requires Closed(spans, children) && Closed(spans, parents) && Counting(spans, children, parents)
    requires HiddenSoon(spans, hidden, toHide) && Highlights(spans)
    ensures Moved(spans, spans', children, parents, p, -1) && Counting(spans', children, parents)
    ensures HiddenSoon(spans', hidden, toHide') && Highlights(spans')
  {
    hide Counting, HiddenSoon, Closed, Highlights, Moved, Adjusted, CountedP, CountedC;
    var t, q, r := spans[p], ListOf(children, p), ListOf(parents, p);
    var s := t.(inFilters := t.inFilters - 1);
    if s.inFilters == 0 {
      s := s.(highlighted := false);
      s := HideSpan(s);
    }
    ListClosed(spans, children, p);
    ListClosed(spans, parents, p);
    var s2, below := CountChildren(spans[p := s], q, -1);
    CountedKeys(spans[p := s], s2, q, -1);
    var above;
    spans', above := CountParents(s2, r, -1);
    toHide' := toHide + below + above;
    AdjustedNow(spans, s2, spans', q, r, p, s, -1);
    AdjustedMoves(spans, spans', children, parents, p, s, -1);
    MovedCounting(spans, spans', children, parents, p, -1);
    CountersNotNegative(spans', children, parents);
    CollapseShown(spans, spans', q, r, p, s, toHide, toHide', hidden);
  }

  function HideSpan(s: Span): Span {
    if Held(s) then s else s.(shown := false)
  }

  lemma CollapseShown(spans: Spans, spans': Spans, q: seq<SpanId>, r: seq<SpanId>, p: SpanId, s: Span,
                      toHide: set<SpanId>, toHide': set<SpanId>, hidden: set<SpanId>)
    requires p in spans && HiddenSoon(spans, hidden, toHide) && Highlights(spans) && Adjusted(spans, spans', q, r, p, s, -1)
    requires forall x :: x in spans ==> spans'[x].inFilters >= 0 && spans'[x].openParents >= 0 && spans'[x].openChildren >= 0
    requires var t := spans[p].(inFilters := spans[p].inFilters - 1);
        t.inFilters >= 0 && s == if t.inFilters == 0 then HideSpan(t.(highlighted := false)) else t
    requires (forall x :: x in q ==> x in spans) && (forall x :: x in r ==> x in spans)
    requires forall x :: x in toHide' <==> x in toHide || x in q || x in r
    ensures HiddenSoon(spans', hidden, toHide') && Highlights(spans')
  {
    forall x | x in spans ensures (Occurrences(q, x) > 0 <==> x in q) && (Occurrences(r, x) > 0 <==> x in r) {
      OccursIn(q, x);
      OccursIn(r, x);
    }
    hide Occurrences;
  }

  // ---------- whole selections ----------

  /** The spans of done have been selected step more times. */
  ghost predicate Shifted(spans: Spans, spans': Spans, done: set<SpanId>, step: int) {
    spans'.Keys == spans.Keys && forall x :: x in spans ==> spans'[x].inFilters == spans[x].inFilters + if x in done then step else 0
  }

  lemma ShiftedStep(spans: Spans, s1: Spans, s2: Spans, children: map<SpanId, seq<SpanId>>, parents: map<SpanId, seq<SpanId>>, done: set<SpanId>, p: SpanId, step: int)
    requires Shifted(spans, s1, done, step) && Moved(s1, s2, children, parents, p, step) && p !in done
    ensures Shifted(spans, s2, done + {p}, step)
  {
    hide Occurrences;
  }

  ghost predicate SameCounters(spans: Spans, spans': Spans) {
    spans'.Keys == spans.Keys && forall x :: x in spans ==> spans'[x].(shown := false) == spans[x].(shown := false)
  }

  lemma SameCounting(spans: Spans, spans': Spans, children: map<SpanId, seq<SpanId>>, parents: map<SpanId, seq<SpanId>>)
    requires Counting(spans, children, parents) && SameCounters(spans, spans')
    ensures Counting(spans', children, parents)
  {
    hide Sum, Occurrences;
    forall x | x in spans
      ensures spans'[x].inFilters == spans[x].inFilters && spans'[x].openParents == spans[x].openParents && spans'[x].openChildren == spans[x].openChildren
    {
      assert spans'[x].(shown := false) == spans[x].(shown := false);
    }
    forall x | x in spans ensures OpenBy(spans', children, x) == OpenBy(spans, children, x) && OpenBy(spans', parents, x) == OpenBy(spans, parents, x) {
      SumSame(spans.Keys, Opens(spans, children, x), Opens(spans', children, x));
      SumSame(spans.Keys, Opens(spans, parents, x), Opens(spans', parents, x));
    }
  }

  /** The spans of hidden are shown exactly if they are held. */
  ghost predicate ShownIfHeld(spans: Spans, hidden: set<SpanId>) {
    forall x :: x in hidden && x in spans ==> (spans[x].shown <==> Held(spans[x]))
  }

  /** Selects the spans us once more. */
  method ExpandSpans(spans: Spans, children: map<SpanId, seq<SpanId>>, parents: map<SpanId, seq<SpanId>>, us: set<SpanId>, ghost hidden: set<SpanId>)
    returns (spans': Spans)
    requires us <= spans.Keys && Closed(spans, children) && Closed(spans, parents) && Counting(spans, children, parents)
    requires ShownIfHeld(spans, hidden) && Highlights(spans)
    ensures Shifted(spans, spans', us, 1) && Counting(spans', children, parents) && ShownIfHeld(spans', hidden) && Highlights(spans')
  {
    hide Counting, Closed, Highlights, ShownSoon, ShownIfHeld, Shifted, Moved, SameCounters, Upto, Lists;
    spans' := spans;
    var toShow: set<SpanId> := {};
    var q := Listing(us);
    UptoEnds(q, us);
    SelectionStarts(spans, hidden);
    for i := 0 to |q|
      invariant Shifted(spans, spans', Upto(q, i), 1) && spans'.Keys == spans.Keys && Counting(spans', children, parents)
      invariant ShownSoon(spans', hidden, toShow) && Highlights(spans')
    {
      UptoStep(q, us, i);
      ClosedKept(spans, spans', children, parents);
      ghost var before := spans';
      spans', toShow := ExpandOne(spans', children, parents, q[i], toShow, hidden);
      MovedKeys(before, spans', children, parents, q[i], 1);
      ShiftedStep(spans, before, spans', children, parents, Upto(q, i), q[i], 1);
    }
    ghost var s1 := spans';
    var shows := Listing(toShow);
    UptoEnds(shows, toShow);
    PendingIn(spans', hidden, toShow);
    assert toShow - {} == toShow;
    SameSelf(spans');
    for i := 0 to |shows|
      invariant SameCounters(s1, spans') && spans'.Keys == spans.Keys && ShownSoon(spans', hidden, toShow - Upto(shows, i))
      invariant Highlights(spans')
    {
      UptoStep(shows, toShow, i);
      ShowStep(s1, spans', hidden, toShow - Upto(shows, i), shows[i]);
      assert toShow - Upto(shows, i + 1) == toShow - Upto(shows, i) - {shows[i]};
      spans' := spans'[shows[i] := spans'[shows[i]].(shown := true)];
    }
    assert toShow - toShow == {};
    SameCounting(s1, spans', children, parents);
    ShownEnds(spans, s1, spans', us, hidden);
  }

  lemma SelectionStarts(spans: Spans, hidden: set<SpanId>)
    requires ShownIfHeld(spans, hidden)
    ensures ShownSoon(spans, hidden, {}) && HiddenSoon(spans, hidden, {}) && Shifted(spans, spans, {}, 1) && Shifted(spans, spans, {}, -1)
  {
  }

  lemma ClosedKept(spans: Spans, spans': Spans, children: map<SpanId, seq<SpanId>>, parents: map<SpanId, seq<SpanId>>)
    requires Closed(spans, children) && Closed(spans, parents) && spans'.Keys == spans.Keys
    ensures Closed(spans', children) && Closed(spans', parents)
  {
  }

  lemma MovedKeys(spans: Spans, spans': Spans, children: map<SpanId, seq<SpanId>>, parents: map<SpanId, seq<SpanId>>, p: SpanId, step: int)
    requires Moved(spans, spans', children, parents, p, step)
    ensures spans'.Keys == spans.Keys
  {
    hide Occurrences;
  }

  lemma PendingIn(spans: Spans, hidden: set<SpanId>, pending: set<SpanId>)
    requires ShownSoon(spans, hidden, pending)
    ensures pending <= spans.Keys
  {
  }

  lemma SameSelf(spans: Spans)
    ensures SameCounters(spans, spans)
  {
  }

  lemma ShowStep(s1: Spans, spans: Spans, hidden: set<SpanId>, pending: set<SpanId>, x: SpanId)
    requires SameCounters(s1, spans) && x in pending && ShownSoon(spans, hidden, pending) && Highlights(spans)
    ensures x in spans
    ensures var spans' := spans[x := spans[x].(shown := true)];
        SameCounters(s1, spans') && ShownSoon(spans', hidden, pending - {x}) && Highlights(spans')
  {
  }

  lemma ShownEnds(spans: Spans, s1: Spans, s2: Spans, us: set<SpanId>, hidden: set<SpanId>)
    requires Shifted(spans, s1, us, 1) && SameCounters(s1, s2) && ShownSoon(s2, hidden, {})
    ensures Shifted(spans, s2, us, 1) && ShownIfHeld(s2, hidden)
  {
    forall x | x in spans ensures s2[x].inFilters == s1[x].inFilters {
      assert s2[x].(shown := false) == s1[x].(shown := false);
    }
  }

  /** Selects the spans us once less. */
  method CollapseSpans(spans: Spans, children: map<SpanId, seq<SpanId>>, parents: map<SpanId, seq<SpanId>>, us: set<SpanId>, ghost hidden: set<SpanId>)
    returns (spans': Spans)
    requires us <= spans.Keys && Closed(spans, children) && Closed(spans, parents) && Counting(spans, children, parents)
    requires ShownIfHeld(spans, hidden) && Highlights(spans) && forall x :: x in us ==> spans[x].inFilters > 0
    ensures Shifted(spans, spans', us, -1) && Counting(spans', children, parents) && ShownIfHeld(spans', hidden) && Highlights(spans')
  {
    hide Counting, Closed, Highlights, HiddenSoon, ShownIfHeld, Shifted, Moved, SameCounters, Upto, Lists;
    spans' := spans;
    var toHide: set<SpanId> := {};
    var q := Listing(us);
    UptoEnds(q, us);
    SelectionStarts(spans, hidden);
    for i := 0 to |q|
      invariant Shifted(spans, spans', Upto(q, i), -1) && spans'.Keys == spans.Keys && Counting(spans', children, parents)
      invariant HiddenSoon(spans', hidden, toHide) && Highlights(spans')
    {
      UptoStep(q, us, i);
      ClosedKept(spans, spans', children, parents);
      ghost var before := spans';
      NotYet(spans, spans', Upto(q, i), q[i]);
      spans', toHide := CollapseOne(spans', children, parents, q[i], toHide, hidden);
      MovedKeys(before, spans', children, parents, q[i], -1);
      ShiftedStep(spans, before, spans', children, parents, Upto(q, i), q[i], -1);
    }
    ghost var s1 := spans';
    var hides := Listing(toHide);
    UptoEnds(hides, toHide);
    HidingIn(spans', hidden, toHide);
    assert toHide - {} == toHide;
    SameSelf(spans');
    for i := 0 to |hides|
      invariant SameCounters(s1, spans') && spans'.Keys == spans.Keys && HiddenSoon(spans', hidden, toHide - Upto(hides, i))
      invariant Highlights(spans')
    {
      UptoStep(hides, toHide, i);
      HideStep(s1, spans', hidden, toHide - Upto(hides, i), hides[i]);
      assert toHide - Upto(hides, i + 1) == toHide - Upto(hides, i) - {hides[i]};
      spans' := spans'[hides[i] := HideSpan(spans'[hides[i]])];
    }
    assert toHide - toHide == {};
    SameCounting(s1, spans', children, parents);
    HiddenEnds(spans, s1, spans', us, hidden);
  }

  lemma NotYet(spans: Spans, spans': Spans, done: set<SpanId>, p: SpanId)
    requires Shifted(spans, spans', done, -1) && p in spans && p !in done
    ensures spans'[p].inFilters == spans[p].inFilters
  {
  }

  lemma HidingIn(spans: Spans, hidden: set<SpanId>, pending: set<SpanId>)
    requires HiddenSoon(spans, hidden, pending)
    ensures pending <= spans.Keys
  {
  }

  lemma HideStep(s1: Spans, spans: Spans, hidden: set<SpanId>, pending: set<SpanId>, x: SpanId)
    requires SameCounters(s1, spans) && x in pending && HiddenSoon(spans, hidden, pending) && Highlights(spans)
    ensures x in spans
    ensures var spans' := spans[x := HideSpan(spans[x])];
        SameCounters(s1, spans') && HiddenSoon(spans', hidden, pending - {x}) && Highlights(spans')
  {
  }

  lemma HiddenEnds(spans: Spans, s1: Spans, s2: Spans, us: set<SpanId>, hidden: set<SpanId>)
    requires Shifted(spans, s1, us, -1) && SameCounters(s1, s2) && HiddenSoon(s2, hidden, {})
    ensures Shifted(spans, s2, us, -1) && ShownIfHeld(s2, hidden)
  {
    forall x | x in spans ensures s2[x].inFilters == s1[x].inFilters {
      assert s2[x].(shown := false) == s1[x].(shown := false);
    }
  }

  // ---------- the component ----------

  ghost predicate AllSelected(spans: Spans, filters: map<string, nat>, spansByService: map<string, set<SpanId>>) {
    forall x :: x in spans ==> spans[x].inFilters == Selected(filters, spansByService, x)
  }

  lemma SelectedStep(filters: map<string, nat>, spansByService: map<string, set<SpanId>>, service: string, n: nat, x: SpanId)
    ensures Selected(filters[service := n], spansByService, x)
         == Selected(filters, spansByService, x) + if x in Members(spansByService, service) then n - Active(filters, service) else 0
  {
    var filters' := filters[service := n];
    var f, g := Selects(filters, spansByService, x), Selects(filters', spansByService, x);
    hide Sum;
    if service in filters {
      assert filters'.Keys == filters.Keys;
      SumPoint(filters.Keys, f, g, service);
    } else {
      assert filters'.Keys - {service} == filters.Keys;
      SumWithout(filters'.Keys, g, service);
      SumSame(filters.Keys, f, g);
    }
  }

  lemma SelectedAll(spans: Spans, spans': Spans, filters: map<string, nat>, spansByService: map<string, set<SpanId>>, service: string, n: nat, step: int)
    requires AllSelected(spans, filters, spansByService) && Shifted(spans, spans', Members(spansByService, service), step)
    requires n == Active(filters, service) + step
    ensures AllSelected(spans', filters[service := n], spansByService)
  {
    hide Selected;
    forall x | x in spans' ensures spans'[x].inFilters == Selected(filters[service := n], spansByService, x) {
      SelectedStep(filters, spansByService, service, n, x);
    }
  }

  /** A span of a selected service is selected at least once. */
  lemma SelectedMember(filters: map<string, nat>, spansByService: map<string, set<SpanId>>, service: string, x: SpanId)
    requires Active(filters, service) > 0 && x in Members(spansByService, service)
    ensures Selected(filters, spansByService, x) > 0
  {
    var f := Selects(filters, spansByService, x);
    SumWithout(filters.Keys, f, service);
    SumPositive(filters.Keys - {service}, f);
  }

  /** Without filters nothing is selected. */
  lemma SelectedNone(filters: map<string, nat>, spansByService: map<string, set<SpanId>>, x: SpanId)
    requires forall service :: Active(filters, service) == 0
    ensures Selected(filters, spansByService, x) == 0
  {
    SumZero(filters.Keys, Selects(filters, spansByService, x));
  }

  lemma OpenNone(spans: Spans, lists: map<SpanId, seq<SpanId>>, x: SpanId)
    requires forall y :: y in spans ==> spans[y].inFilters == 0
    ensures OpenBy(spans, lists, x) == 0
  {
    hide Occurrences;
    forall y | y in spans.Keys ensures Opens(spans, lists, x)(y) == 0 {
      assert InFilters(spans, y) == 0;
    }
    SumZero(spans.Keys, Opens(spans, lists, x));
  }

  /** All spans of a trace set up, with their counters at zero. */
  function NewSpans(shown: map<SpanId, bool>): Spans {
    map x | x in shown :: Span(0, 0, 0, shown[x], false)
  }

  function HiddenOf(shown: map<SpanId, bool>): set<SpanId> {
    set x | x in shown && !shown[x]
  }

  lemma NewSpanIs(shown: map<SpanId, bool>)
    ensures NewSpans(shown).Keys == shown.Keys && forall x :: x in shown ==> NewSpans(shown)[x] == Span(0, 0, 0, shown[x], false)
    ensures forall x :: x in HiddenOf(shown) <==> x in shown && !shown[x]
  {
  }

  /** A trace before any filter: nothing is selected and nothing held. */
  lemma Starting(shown: map<SpanId, bool>, children: map<SpanId, seq<SpanId>>, parents: map<SpanId, seq<SpanId>>, services: map<string, set<SpanId>>)
    ensures var spans := NewSpans(shown);
      Counting(spans, children, parents) && AllSelected(spans, map[], services) && ShownIfHeld(spans, HiddenOf(shown)) && Highlights(spans)
  {
    hide *;
    var spans := NewSpans(shown);
    NewSpanIs(shown);
    forall x | x in shown
      ensures OpenBy(spans, children, x) == 0 && OpenBy(spans, parents, x) == 0 && Selected(map[], services, x) == 0
    {
      NoFilters();
      OpenNone(spans, children, x);
      OpenNone(spans, parents, x);
      SelectedNone(map[], services, x);
    }
    CountingStarts(spans, shown, children, parents);
    SelectingStarts(spans, shown, services);
  }

  lemma CountingStarts(spans: Spans, shown: map<SpanId, bool>, children: map<SpanId, seq<SpanId>>, parents: map<SpanId, seq<SpanId>>)
    requires spans.Keys == shown.Keys && forall x :: x in shown ==> spans[x] == Span(0, 0, 0, shown[x], false)
    requires forall x :: x in shown ==> OpenBy(spans, children, x) == 0 && OpenBy(spans, parents, x) == 0
    ensures Counting(spans, children, parents)
  {
    hide OpenBy;
  }

  lemma SelectingStarts(spans: Spans, shown: map<SpanId, bool>, services: map<string, set<SpanId>>)
    requires spans.Keys == shown.Keys && forall x :: x in shown ==> spans[x] == Span(0, 0, 0, shown[x], false)
    requires forall x :: x in shown ==> Selected(map[], services, x) == 0
    ensures AllSelected(spans, map[], services) && ShownIfHeld(spans, HiddenOf(shown)) && Highlights(spans)
  {
    hide Selected;
  }

  class TraceView {
    var spans: Spans
    var children: map<SpanId, seq<SpanId>>
    var parents: map<SpanId, seq<SpanId>>
    var spansByService: map<string, set<SpanId>>
    /** How often each filter has been added and not yet removed. */
    ghost var filters: map<string, nat>
    /** The spans that were hidden at the start. */
    ghost var hidden: set<SpanId>

    ghost predicate Valid()
      reads this
    {
      && Closed(spans, children) && Closed(spans, parents) && (forall service :: service in spansByService ==> spansByService[service] <= spans.Keys)
      && AllSelected(spans, filters, spansByService) && Counting(spans, children, parents)
      && ShownIfHeld(spans, hidden) && Highlights(spans)
    }

    /** All spans of a trace set up, with their counters at zero and no filter active. */
    constructor (shown: map<SpanId, bool>, children0: map<SpanId, seq<SpanId>>, parents0: map<SpanId, seq<SpanId>>, services: map<string, set<SpanId>>)
      requires forall x, i :: x in children0 && 0 <= i < |children0[x]| ==> children0[x][i] in shown
      requires forall x, i :: x in parents0 && 0 <= i < |parents0[x]| ==> parents0[x][i] in shown
      requires forall service :: service in services ==> services[service] <= shown.Keys
      ensures Valid() && children == children0 && parents == parents0 && spansByService == services && spans.Keys == shown.Keys
      ensures hidden == HiddenOf(shown) && forall service :: Active(filters, service) == 0
    {
      hide *;
      spans := NewSpans(shown);
      children, parents, spansByService := children0, parents0, services;
      filters, hidden := map[], HiddenOf(shown);
      new;
      NewSpanIs(shown);
      Starting(shown, children0, parents0, services);
      ListsKnown(spans, children0, shown.Keys);
      ListsKnown(spans, parents0, shown.Keys);
      NoFilters();
      ValidMade();
    }

    lemma ValidMade()
      requires Closed(spans, children) && Closed(spans, parents) && (forall service :: service in spansByService ==> spansByService[service] <= spans.Keys)
      requires AllSelected(spans, filters, spansByService) && Counting(spans, children, parents) && ShownIfHeld(spans, hidden) && Highlights(spans)
      ensures Valid()
    {
      hide Closed, AllSelected, Counting, ShownIfHeld, Highlights;
    }

    method FilterAdded(service: string)
      requires Valid()
      modifies this`spans, this`filters
      ensures Valid() && spans.Keys == old(spans).Keys && filters == old(filters)[service := Active(old(filters), service) + 1]
    {
      hide Counting, Closed, Highlights, ShownIfHeld, AllSelected, Shifted;
      ghost var before := spans;
      spans := ExpandSpans(spans, children, parents, Members(spansByService, service), hidden);
      SelectedAll(before, spans, filters, spansByService, service, Active(filters, service) + 1, 1);
      ShiftedKeys(before, spans, Members(spansByService, service), 1);
      ClosedKept(before, spans, children, parents);
      filters := filters[service := Active(filters, service) + 1];
    }

    /** A filter is removed that has been added before. */
    method FilterRemoved(service: string)
      requires Valid() && Active(filters, service) > 0
      modifies this`spans, this`filters
      ensures Valid() && spans.Keys == old(spans).Keys && filters == old(filters)[service := Active(old(filters), service) - 1]
    {
      hide Counting, Closed, Highlights, ShownIfHeld, AllSelected, Shifted;
      ghost var before := spans;
      MembersSelected(service);
      spans := CollapseSpans(spans, children, parents, Members(spansByService, service), hidden);
      SelectedAll(before, spans, filters, spansByService, service, Active(filters, service) - 1, -1);
      ShiftedKeys(before, spans, Members(spansByService, service), -1);
      ClosedKept(before, spans, children, parents);
      filters := filters[service := Active(filters, service) - 1];
    }

    lemma MembersSelected(service: string)
      requires Valid() && Active(filters, service) > 0
      ensures forall x :: x in Members(spansByService, service) ==> x in spans && spans[x].inFilters > 0
    {
      hide Counting, Selected;
      forall x | x in Members(spansByService, service) ensures x in spans && spans[x].inFilters > 0 {
        SelectedMember(filters, spansByService, service, x);
      }
    }

    /** When all filters have been removed, in whatever order, all counters are back at zero and what was hidden is hidden. */
    lemma AllRemoved()
      requires Valid() && forall service :: Active(filters, service) == 0
      ensures forall x :: x in spans ==> spans[x].inFilters == 0 && spans[x].openParents == 0 && spans[x].openChildren == 0 && !spans[x].highlighted
      ensures forall x :: x in spans && x in hidden ==> !spans[x].shown
    {
      forall x | x in spans ensures spans[x].inFilters == 0 {
        SelectedNone(filters, spansByService, x);
      }
      forall x | x in spans ensures spans[x].openParents == 0 && spans[x].openChildren == 0 {
        OpenNone(spans, children, x);
        OpenNone(spans, parents, x);
      }
      hide OpenBy, Selected;
    }

    /** The ancestor lists are those that the spans of order have been set up with, one after the other. */
    ghost predicate SetUp(parentOf: map<SpanId, Option<SpanId>>, depth: map<SpanId, nat>, order: seq<SpanId>)
      reads this
    {
      parents == AncestorLists(parentOf, order) && Acyclic(parentOf, depth) && Lists(order, parentOf.Keys) && spans.Keys == parentOf.Keys
    }

    /** If every span has been set up after its parent, openChildren counts how often the spans below are selected. */
    lemma OpenBelow(parentOf: map<SpanId, Option<SpanId>>, depth: map<SpanId, nat>, order: seq<SpanId>, x: SpanId)
      requires Valid() && SetUp(parentOf, depth, order) && ParentsFirst(parentOf, order) && x in spans
      ensures spans[x].openChildren == Sum(Below(parentOf, depth, x), Filtered(spans))
    {
      hide *;
      var lists := AncestorLists(parentOf, order);
      CountingAt(x);
      SetUpParts(parentOf, depth, order);
      ListsSo(parentOf, depth, order);
      OpenIsBelow(spans, parentOf, depth, lists, x);
    }

    lemma SetUpParts(parentOf: map<SpanId, Option<SpanId>>, depth: map<SpanId, nat>, order: seq<SpanId>)
      requires SetUp(parentOf, depth, order)
      ensures parents == AncestorLists(parentOf, order) && Acyclic(parentOf, depth) && Lists(order, parentOf.Keys) && spans.Keys == parentOf.Keys
    {
      hide AncestorLists, Acyclic;
    }

    lemma CountingAt(x: SpanId)
      requires Valid() && x in spans
      ensures spans[x].openParents == OpenBy(spans, children, x) && spans[x].openChildren == OpenBy(spans, parents, x)
      ensures Selecting(spans) && spans[x].inFilters == Selected(filters, spansByService, x)
      ensures x in hidden ==> (spans[x].shown <==> Held(spans[x]))
    {
      hide OpenBy, Selected, Closed, Highlights;
    }

    lemma SelectedAt(y: SpanId)
      requires Valid()
      ensures InFilters(spans, y) > 0 <==> y in spans && exists service :: Active(filters, service) > 0 && y in Members(spansByService, service)
    {
      if y in spans {
        SelectedSome(filters, spansByService, y);
      }
      hide OpenBy, Selected, Counting, Closed, Highlights, ShownIfHeld;
    }

    /** What a user sees: a span that was hidden at the start is shown exactly if an active filter selects it, a span that lists it among its
        children, or a span below it. */
    lemma ShownExactly(parentOf: map<SpanId, Option<SpanId>>, depth: map<SpanId, nat>, order: seq<SpanId>, x: SpanId)
      requires Valid() && SetUp(parentOf, depth, order) && ParentsFirst(parentOf, order) && x in spans && x in hidden
      ensures spans[x].shown <==> exists y, service :: Brings(filters, spansByService, service, y) && Concerns(children, parentOf, depth, y, x)
    {
      hide *;
      var lists := AncestorLists(parentOf, order);
      CountingAt(x);
      SetUpParts(parentOf, depth, order);
      ListsSo(parentOf, depth, order);
      OpenSome(spans, children, x);
      OpenSome(spans, lists, x);
      HeldIs(spans[x]);
      if spans[x].shown {
        var y := Holder(spans, children, lists, x);
        HolderConcerns(children, parentOf, depth, lists, y, x);
        SelectedAt(y);
        var service :| Active(filters, service) > 0 && y in Members(spansByService, service);
        BringsMade(filters, spansByService, service, y);
      }
      if y, service :| Brings(filters, spansByService, service, y) && Concerns(children, parentOf, depth, y, x) {
        BringsMade(filters, spansByService, service, y);
        MemberIn(service, y);
        SelectedAt(y);
        Concerned(spans, children, parentOf, depth, lists, y, x);
      }
    }

    lemma MemberIn(service: string, y: SpanId)
      requires Valid() && y in Members(spansByService, service)
      ensures y in spans
    {
      hide OpenBy, Selected, Counting, Closed, Highlights, ShownIfHeld, AllSelected;
    }
  }

  lemma ListsKnown(spans: Spans, lists: map<SpanId, seq<SpanId>>, us: set<SpanId>)
    requires spans.Keys == us && forall x, i :: x in lists && 0 <= i < |lists[x]| ==> lists[x][i] in us
    ensures Closed(spans, lists)
  {
  }

  lemma NoFilters()
    ensures forall service :: Active(map[], service) == 0
  {
  }

  /** The filter of the service is active and selects y. */
  ghost predicate Brings(filters: map<string, nat>, spansByService: map<string, set<SpanId>>, service: string, y: SpanId) {
    Active(filters, service) > 0 && y in Members(spansByService, service)
  }

  lemma BringsMade(filters: map<string, nat>, spansByService: map<string, set<SpanId>>, service: string, y: SpanId)
    ensures Brings(filters, spansByService, service, y) <==> Active(filters, service) > 0 && y in Members(spansByService, service)
  {
  }

  /** y is x, has it among its children, or has it as an ancestor. */
  ghost predicate Concerns(children: map<SpanId, seq<SpanId>>, parentOf: map<SpanId, Option<SpanId>>, depth: map<SpanId, nat>, y: SpanId, x: SpanId)
    requires Acyclic(parentOf, depth)
  {
    y == x || x in ListOf(children, y) || (y in parentOf && x in Ancestors(parentOf, depth, y))
  }

  ghost predicate Selecting(spans: Spans) {
    forall y :: y in spans ==> spans[y].inFilters >= 0
  }

  lemma HeldIs(s: Span)
    ensures Held(s) <==> s.inFilters > 0 || s.openChildren > 0 || s.openParents > 0
  {
  }

  ghost function Filtered(spans: Spans): SpanId -> int {
    y => InFilters(spans, y)
  }

  /** The spans below x. */
  ghost function Below(parentOf: map<SpanId, Option<SpanId>>, depth: map<SpanId, nat>, x: SpanId): set<SpanId>
    requires Acyclic(parentOf, depth)
  {
    set y | y in parentOf && x in Ancestors(parentOf, depth, y)
  }

  /** The lists are those of the ancestors. */
  ghost predicate AncestorsListed(parentOf: map<SpanId, Option<SpanId>>, depth: map<SpanId, nat>, lists: map<SpanId, seq<SpanId>>)
    requires Acyclic(parentOf, depth)
  {
    forall y :: if y in parentOf then ListOf(lists, y) == Ancestors(parentOf, depth, y) else ListOf(lists, y) == []
  }

  lemma ListsSo(parentOf: map<SpanId, Option<SpanId>>, depth: map<SpanId, nat>, order: seq<SpanId>)
    requires Acyclic(parentOf, depth) && Lists(order, parentOf.Keys) && ParentsFirst(parentOf, order)
    ensures AncestorsListed(parentOf, depth, AncestorLists(parentOf, order))
  {
    hide AncestorLists, Ancestors;
    ListsRight(parentOf, depth, order);
    forall y ensures y in AncestorLists(parentOf, order) <==> y in order {
      ListsKeys(parentOf, order, y);
    }
  }

  lemma {:induction false} OccursOnce(q: seq<SpanId>, x: SpanId)
    requires NoDup(q)
    ensures Occurrences(q, x) == if x in q then 1 else 0
  {
    if q != [] {
      OccursOnce(q[..|q| - 1], x);
      assert q == q[..|q| - 1] + [q[|q| - 1]];
    }
  }

  /** No span is its own ancestor, or occurs among the ancestors of another twice. */
  lemma {:induction false} AncestorsDiffer(parentOf: map<SpanId, Option<SpanId>>, depth: map<SpanId, nat>, y: SpanId)
    requires Acyclic(parentOf, depth) && y in parentOf
    ensures NoDup(Ancestors(parentOf, depth, y))
    ensures forall z :: z in Ancestors(parentOf, depth, y) && z in parentOf ==> depth[z] < depth[y]
    decreases depth[y]
  {
    if parentOf[y].Some? && parentOf[y].value in parentOf {
      AncestorsDiffer(parentOf, depth, parentOf[y].value);
    }
  }

  lemma OpenIsBelow(spans: Spans, parentOf: map<SpanId, Option<SpanId>>, depth: map<SpanId, nat>, lists: map<SpanId, seq<SpanId>>, x: SpanId)
    requires Acyclic(parentOf, depth) && AncestorsListed(parentOf, depth, lists) && spans.Keys == parentOf.Keys
    ensures OpenBy(spans, lists, x) == Sum(Below(parentOf, depth, x), Filtered(spans))
  {
    hide Sum, Ancestors, Occurrences, ListOf, InFilters;
    forall y | y in spans ensures Occurrences(ListOf(lists, y), x) == if x in Ancestors(parentOf, depth, y) then 1 else 0 {
      AncestorsDiffer(parentOf, depth, y);
      OccursOnce(ListOf(lists, y), x);
    }
    forall y | y in spans ensures Opens(spans, lists, x)(y) == if x in Ancestors(parentOf, depth, y) then Filtered(spans)(y) else 0 {
      Times(0, 1, 1, InFilters(spans, y));
    }
    SumWhere(spans.Keys, Opens(spans, lists, x), Below(parentOf, depth, x), Filtered(spans));
  }

  /** x is held open exactly if a span that is selected lists it. */
  lemma OpenSome(spans: Spans, lists: map<SpanId, seq<SpanId>>, x: SpanId)
    requires Selecting(spans)
    ensures OpenBy(spans, lists, x) >= 0
    ensures OpenBy(spans, lists, x) > 0 <==> exists y :: InFilters(spans, y) > 0 && x in ListOf(lists, y)
  {
    hide Sum, Occurrences, ListOf;
    forall y ensures Opens(spans, lists, x)(y) >= 0 && (Opens(spans, lists, x)(y) > 0 <==> InFilters(spans, y) > 0 && x in ListOf(lists, y)) {
      OccursIn(ListOf(lists, y), x);
      ProductPositive(InFilters(spans, y), Occurrences(ListOf(lists, y), x));
    }
    SumSome(spans.Keys, Opens(spans, lists, x));
    SumPositive(spans.Keys, Opens(spans, lists, x));
  }

  lemma ProductPositive(a: int, b: nat)
    requires a >= 0
    ensures a * b >= 0 && (a * b > 0 <==> a > 0 && b > 0)
  {
  }

  /** Which span it is that holds x. */
  lemma Holder(spans: Spans, children: map<SpanId, seq<SpanId>>, lists: map<SpanId, seq<SpanId>>, x: SpanId) returns (y: SpanId)
    requires x in spans && Held(spans[x])
    requires spans[x].openParents > 0 ==> exists y :: InFilters(spans, y) > 0 && x in ListOf(children, y)
    requires spans[x].openChildren > 0 ==> exists y :: InFilters(spans, y) > 0 && x in ListOf(lists, y)
    ensures InFilters(spans, y) > 0 && (y == x || x in ListOf(children, y) || x in ListOf(lists, y))
  {
    hide ListOf;
    if spans[x].inFilters > 0 {
      y := x;
    } else if spans[x].openParents > 0 {
      y :| InFilters(spans, y) > 0 && x in ListOf(children, y);
    } else {
      y :| InFilters(spans, y) > 0 && x in ListOf(lists, y);
    }
  }

  lemma HolderConcerns(children: map<SpanId, seq<SpanId>>, parentOf: map<SpanId, Option<SpanId>>, depth: map<SpanId, nat>,
                       lists: map<SpanId, seq<SpanId>>, y: SpanId, x: SpanId)
    requires Acyclic(parentOf, depth) && AncestorsListed(parentOf, depth, lists)
    requires y == x || x in ListOf(children, y) || x in ListOf(lists, y)
    ensures Concerns(children, parentOf, depth, y, x)
  {
    hide Ancestors, ListOf;
  }

  lemma Concerned(spans: Spans, children: map<SpanId, seq<SpanId>>, parentOf: map<SpanId, Option<SpanId>>, depth: map<SpanId, nat>,
                  lists: map<SpanId, seq<SpanId>>, y: SpanId, x: SpanId)
    requires Acyclic(parentOf, depth) && AncestorsListed(parentOf, depth, lists) && Concerns(children, parentOf, depth, y, x)
    requires InFilters(spans, y) > 0 && x in spans
    ensures spans[x].inFilters > 0 || (exists y :: InFilters(spans, y) > 0 && x in ListOf(children, y))
      || (exists y :: InFilters(spans, y) > 0 && x in ListOf(lists, y))
  {
    hide Ancestors, ListOf;
  }

  /** A span is selected exactly if it belongs to a service with an active filter. */
  lemma SelectedSome(filters: map<string, nat>, spansByService: map<string, set<SpanId>>, x: SpanId)
    ensures Selected(filters, spansByService, x) > 0 <==>
            exists service :: Active(filters, service) > 0 && x in Members(spansByService, service)
  {
    hide Sum, Members;
    SumSome(filters.Keys, Selects(filters, spansByService, x));
  }

  lemma ShiftedKeys(spans: Spans, spans': Spans, us: set<SpanId>, step: int)
    requires Shifted(spans, spans', us, step)
    ensures spans'.Keys == spans.Keys
  {
  }

  // ---------- setting up the ancestor lists ----------

  /** The spans of a trace and the parents they name; depth shows that no span is its own ancestor. */
  ghost predicate Acyclic(parentOf: map<SpanId, Option<SpanId>>, depth: map<SpanId, nat>) {
    depth.Keys == parentOf.Keys &&
    forall x :: x in parentOf && parentOf[x].Some? && parentOf[x].value in parentOf ==> depth[parentOf[x].value] < depth[x]
  }

  /** The parent of x, its parent, and so on. */
  ghost function Ancestors(parentOf: map<SpanId, Option<SpanId>>, depth: map<SpanId, nat>, x: SpanId): seq<SpanId>
    requires Acyclic(parentOf, depth) && x in parentOf
    decreases depth[x]
  {
    if parentOf[x].None? then []
    else
      var p := parentOf[x].value;
      [p] + if p in parentOf then Ancestors(parentOf, depth, p) else []
  }

  /** The ancestor lists after the spans of order have been set up one after the other: each takes over the list that its
      parent has so far. */
  function AncestorLists(parentOf: map<SpanId, Option<SpanId>>, order: seq<SpanId>): map<SpanId, seq<SpanId>> {
    if order == [] then map[]
    else
      var before, x := AncestorLists(parentOf, order[..|order| - 1]), order[|order| - 1];
      before[x := if x in parentOf && parentOf[x].Some? then [parentOf[x].value] + ListOf(before, parentOf[x].value) else []]
  }

  method SetupSpans(parentOf: map<SpanId, Option<SpanId>>, order: seq<SpanId>) returns (parents: map<SpanId, seq<SpanId>>)
    requires forall i :: 0 <= i < |order| ==> order[i] in parentOf
    ensures parents == AncestorLists(parentOf, order)
  {
    parents := map[];
    for i := 0 to |order|
      invariant parents == AncestorLists(parentOf, order[..i])
    {
      var id := order[i];
      assert order[..i + 1][..i] == order[..i];
      var list := if parentOf[id].Some? then [parentOf[id].value] else [];
      if parentOf[id].Some? {
        list := list + ListOf(parents, parentOf[id].value);
      }
      parents := parents[id := list];
    }
    assert order[..|order|] == order;
  }

  /** Each span comes after its parent, unless the parent has no parent itself or is not part of the trace. */
  ghost predicate ParentsFirst(parentOf: map<SpanId, Option<SpanId>>, order: seq<SpanId>) {
    forall i :: 0 <= i < |order| && order[i] in parentOf && parentOf[order[i]].Some? ==>
      var p := parentOf[order[i]].value; p in parentOf && parentOf[p].Some? ==> p in order[..i]
  }

  lemma {:induction false} ListsStay(parentOf: map<SpanId, Option<SpanId>>, order: seq<SpanId>, i: nat)
    requires i < |order| && NoDup(order)
    ensures order[i] in AncestorLists(parentOf, order) && AncestorLists(parentOf, order)[order[i]] == AncestorLists(parentOf, order[..i + 1])[order[i]]
    decreases |order|
  {
    if i < |order| - 1 {
      ListsStay(parentOf, order[..|order| - 1], i);
      assert order[..|order| - 1][..i + 1] == order[..i + 1];
    } else {
      assert order[..i + 1] == order;
    }
  }

  /** A list is the parent and what was the parent's list then. */
  lemma ListIs(parentOf: map<SpanId, Option<SpanId>>, order: seq<SpanId>, i: nat)
    requires i < |order| && NoDup(order) && order[i] in parentOf
    ensures order[i] in AncestorLists(parentOf, order)
    ensures AncestorLists(parentOf, order)[order[i]] ==
        if parentOf[order[i]].Some? then [parentOf[order[i]].value] + ListOf(AncestorLists(parentOf, order[..i]), parentOf[order[i]].value) else []
  {
    ListsStay(parentOf, order, i);
    assert order[..i + 1][..i] == order[..i];
  }

  lemma {:induction false} ListsKeys(parentOf: map<SpanId, Option<SpanId>>, order: seq<SpanId>, x: SpanId)
    ensures x in AncestorLists(parentOf, order) <==> x in order
    decreases |order|
  {
    if order != [] {
      ListsKeys(parentOf, order[..|order| - 1], x);
      assert order == order[..|order| - 1] + [order[|order| - 1]];
    }
  }

  lemma {:induction false} ListRight(parentOf: map<SpanId, Option<SpanId>>, depth: map<SpanId, nat>, order: seq<SpanId>, i: nat)
    requires Acyclic(parentOf, depth) && NoDup(order) && (forall k :: 0 <= k < |order| ==> order[k] in parentOf)
    requires ParentsFirst(parentOf, order) && i < |order|
    ensures order[i] in AncestorLists(parentOf, order) && AncestorLists(parentOf, order)[order[i]] == Ancestors(parentOf, depth, order[i])
    decreases i
  {
    hide AncestorLists;
    ListIs(parentOf, order, i);
    var x := order[i];
    if parentOf[x].Some? {
      var p := parentOf[x].value;
      ListsKeys(parentOf, order[..i], p);
      if p in order[..i] {
        var k :| 0 <= k < i && order[..i][k] == p;
        ListRight(parentOf, depth, order, k);
        ListsStay(parentOf, order, k);
        ListsStay(parentOf, order[..i], k);
        assert order[..i][..k + 1] == order[..k + 1];
      }
    }
  }

  /** The lists are the ancestors exactly if parents come first. */
  lemma ListsRight(parentOf: map<SpanId, Option<SpanId>>, depth: map<SpanId, nat>, order: seq<SpanId>)
    requires Acyclic(parentOf, depth) && NoDup(order) && forall k :: 0 <= k < |order| ==> order[k] in parentOf
    ensures (forall i :: 0 <= i < |order| ==> order[i] in AncestorLists(parentOf, order) && AncestorLists(parentOf, order)[order[i]] == Ancestors(parentOf, depth, order[i]))
       <==> ParentsFirst(parentOf, order)
  {
    hide AncestorLists;
    if ParentsFirst(parentOf, order) {
      forall i | 0 <= i < |order| ensures order[i] in AncestorLists(parentOf, order) && AncestorLists(parentOf, order)[order[i]] == Ancestors(parentOf, depth, order[i]) {
        ListRight(parentOf, depth, order, i);
      }
    } else {
      var i :| 0 <= i < |order| && order[i] in parentOf && parentOf[order[i]].Some? && parentOf[order[i]].value in parentOf
               && parentOf[parentOf[order[i]].value].Some? && parentOf[order[i]].value !in order[..i];
      ListIs(parentOf, order, i);
      ListsKeys(parentOf, order[..i], parentOf[order[i]].value);
      assert |Ancestors(parentOf, depth, order[i])| > 1;
    }
  }

  /** What the lists name belongs to the trace, if the parents do. */
  lemma {:induction false} ListsClosed(parentOf: map<SpanId, Option<SpanId>>, order: seq<SpanId>, us: set<SpanId>)
    requires forall x :: x in parentOf && parentOf[x].Some? ==> parentOf[x].value in us
    ensures forall x, i :: x in AncestorLists(parentOf, order) && 0 <= i < |AncestorLists(parentOf, order)[x]| ==>
              AncestorLists(parentOf, order)[x][i] in us
    decreases |order|
  {
    if order != [] {
      ListsClosed(parentOf, order[..|order| - 1], us);
    }
  }

  /** A whole trace: its spans are set up in the order of the page, and the view starts with no filter. */
  method NewTrace(shown: map<SpanId, bool>, children: map<SpanId, seq<SpanId>>, parentOf: map<SpanId, Option<SpanId>>, ghost depth: map<SpanId, nat>,
                  order: seq<SpanId>, services: map<string, set<SpanId>>)
    returns (view: TraceView)
    requires Acyclic(parentOf, depth) && Lists(order, parentOf.Keys) && shown.Keys == parentOf.Keys
    requires forall x :: x in parentOf && parentOf[x].Some? ==> parentOf[x].value in shown.Keys
    requires forall x, i :: x in children && 0 <= i < |children[x]| ==> children[x][i] in shown
    requires forall service :: service in services ==> services[service] <= shown.Keys
    ensures fresh(view) && view.Valid() && view.SetUp(parentOf, depth, order) && view.children == children && view.spansByService == services
    ensures view.hidden == HiddenOf(shown) && forall service :: Active(view.filters, service) == 0
  {
    hide Acyclic, AncestorLists, TraceView.Valid;
    AllKnown(order, parentOf.Keys);
    var lists := SetupSpans(parentOf, order);
    ListsClosed(parentOf, order, shown.Keys);
    view := new TraceView(shown, children, lists, services);
  }

  lemma AllKnown(order: seq<SpanId>, us: set<SpanId>)
    requires Lists(order, us)
    ensures forall i :: 0 <= i < |order| ==> order[i] in us
  {
  }
}
