/** Brandes and Koepf's horizontal compaction: the blocks are placed relative to the heads of their classes, and then each class is
    shifted by the least amount noted for it. */
module Compactions {
  import opened Base
  import opened Digraphs
  import opened Alignments
  import opened Blocks
  import opened Placements
  import opened ClassHeads

  /** The end: x of each node is that of its block plus the shift of its class. */
  ghost predicate Shifted(d: Drawing, rel: map<Id, real>, sink: map<Id, Id>, shift: map<Id, real>, xs: map<Id, real>) {
    xs.Keys == d.s.pos.Keys && forall v :: v in d.s.pos ==> Shifts(d, rel, sink, shift, v) && xs[v] == Final(d, rel, sink, shift, v)
  }

  ghost predicate Shifts(d: Drawing, rel: map<Id, real>, sink: map<Id, Id>, shift: map<Id, real>, v: Id) {
    d.Root(v) in rel && d.Root(v) in sink
  }

  ghost function Final(d: Drawing, rel: map<Id, real>, sink: map<Id, Id>, shift: map<Id, real>, v: Id): real
    requires Shifts(d, rel, sink, shift, v)
  {
    rel[d.Root(v)] + ShiftOf(shift, sink[d.Root(v)])
  }

  function ShiftOf(shift: map<Id, real>, c: Id): real {
    if c in shift then shift[c] else 0.0
  }

  /** The nodes of a block share one x, and all neighbours in a layer keep their order and their distance. */
  ghost predicate Spaced(d: Drawing, xs: map<Id, real>) {
    && xs.Keys == d.s.pos.Keys
    && (forall v, w :: v in d.s.pos && w in d.s.pos && d.Root(v) == d.Root(w) ==> xs[v] == xs[w])
    && (forall w :: w in d.s.pos && d.s.P(w) > 0 ==> d.Left(w) in d.s.pos && xs[w] >= xs[d.Left(w)] + d.sep(d.Left(w)) + d.sep(w))
  }

  lemma SpacedMade(d: Drawing, xs: map<Id, real>)
    requires xs.Keys == d.s.pos.Keys
    requires forall v, w :: v in d.s.pos && w in d.s.pos && d.Root(v) == d.Root(w) ==> xs[v] == xs[w]
    requires forall w :: w in d.s.pos && d.s.P(w) > 0 ==> d.Left(w) in d.s.pos && xs[w] >= xs[d.Left(w)] + d.sep(d.Left(w)) + d.sep(w)
    ensures Spaced(d, xs)
  {
    hide Drawing.Root, Drawing.Left, Sheet.P;
  }

  /** The shift that class v would need for class u, given the shifts so far. */
  function Term(maybeShift: map<(Id, Id), real>, shift: map<Id, real>, v: Id, u: Id): real {
    (if (v, u) in maybeShift then maybeShift[(v, u)] else 0.0) + ShiftOf(shift, u)
  }

  /** r is the least of the shifts noted for class v, or zero if there is none. */
  ghost predicate Least(maybeShift: map<(Id, Id), real>, shift: map<Id, real>, v: Id, r: real) {
    && (forall u :: (v, u) in maybeShift ==> r <= Term(maybeShift, shift, v, u))
    && ((exists u :: (v, u) in maybeShift && r == Term(maybeShift, shift, v, u)) || (r == 0.0 && forall u :: (v, u) !in maybeShift))
  }

  method MinShift(maybeShift: map<(Id, Id), real>, shift: map<Id, real>, v: Id) returns (r: real)
    ensures Least(maybeShift, shift, v, r)
  {
    var keys := set p | p in maybeShift && p.0 == v :: p.1;
    var us := Listing(keys);
    hide Term;
    r := 0.0;
    for i := 0 to |us|
      invariant forall j :: 0 <= j < i ==> r <= Term(maybeShift, shift, v, us[j])
      invariant i == 0 ==> r == 0.0
      invariant i > 0 ==> exists j :: 0 <= j < i && r == Term(maybeShift, shift, v, us[j])
    {
      var t := Term(maybeShift, shift, v, us[i]);
      if i == 0 || t < r {
        r := t;
      }
    }
    forall u | (v, u) in maybeShift ensures u in us {
      assert (v, u).1 in keys;
    }
    if |us| > 0 {
      var j :| 0 <= j < |us| && r == Term(maybeShift, shift, v, us[j]);
      assert us[j] in keys && (v, us[j]) in maybeShift;
    }
  }

  /** v heads a class. */
  predicate Heads(d: Drawing, sink: map<Id, Id>, v: Id) {
    v in sink && v == d.Root(v) && v == sink[v]
  }

  /** The shifts of the heads that come before v. */
  ghost function ShiftsBefore(d: Drawing, shift: map<Id, real>, v: Id): map<Id, real> {
    map u | u in shift && d.s.Before(u, d.s.L(v), d.s.P(v)) :: shift[u]
  }

  /** The heads before (i, k) have been shifted, each by the least amount noted, given the shifts of the heads before it. */
  ghost predicate Shifting(d: Drawing, sink: map<Id, Id>, maybeShift: map<(Id, Id), real>, shift: map<Id, real>, i: nat, k: nat) {
    && (forall v :: v in shift <==> v in d.s.pos && Heads(d, sink, v) && d.s.Before(v, i, k))
    && (forall v :: v in shift ==> Least(maybeShift, ShiftsBefore(d, shift, v), v, shift[v]))
  }

  /** (i', k') is the place after v at (i, k), or, without v, the same place in another guise. */
  ghost predicate Next(s: Sheet, i: nat, k: nat, v: Id, i': nat, k': nat) {
    v in s.pos && s.L(v) == i && s.P(v) == k && forall w :: w in s.pos ==> (s.Before(w, i', k') <==> s.Before(w, i, k) || w == v)
  }

  lemma NextIs(s: Sheet, i: nat, k: nat, v: Id)
    requires s.Valid() && s.In(i, k) && v == s.layering[i][k]
    ensures Next(s, i, k, v, i, k + 1)
  {
    PlaceOf(s, i, k);
    NextPlace(s, i, k, v);
  }

  lemma ShiftingStep(d: Drawing, sink: map<Id, Id>, maybeShift: map<(Id, Id), real>, shift: map<Id, real>, i: nat, k: nat, v: Id, r: real)
    requires Next(d.s, i, k, v, i, k + 1) && Shifting(d, sink, maybeShift, shift, i, k)
    requires Heads(d, sink, v) && Least(maybeShift, shift, v, r)
    ensures Shifting(d, sink, maybeShift, shift[v := r], i, k + 1)
  {
    hide Least, Heads;
    var shift' := shift[v := r];
    assert v !in shift;
    assert ShiftsBefore(d, shift', v) == shift;
    forall x | x in shift ensures ShiftsBefore(d, shift', x) == ShiftsBefore(d, shift, x) {
    }
  }

  lemma ShiftingSkip(d: Drawing, sink: map<Id, Id>, maybeShift: map<(Id, Id), real>, shift: map<Id, real>, i: nat, k: nat, v: Id)
    requires Next(d.s, i, k, v, i, k + 1) && Shifting(d, sink, maybeShift, shift, i, k) && !Heads(d, sink, v)
    ensures Shifting(d, sink, maybeShift, shift, i, k + 1)
  {
    hide Least, Heads, ShiftsBefore, Sheet.Before, Sheet.L, Sheet.P;
  }

  /** The nodes before (i, k) have the x of their block. */
  ghost predicate Copied(d: Drawing, rel: map<Id, real>, xs: map<Id, real>, i: nat, k: nat) {
    && rel.Keys <= xs.Keys <= d.s.pos.Keys
    && (forall v :: v in d.s.pos && d.s.Before(v, i, k) ==> v in xs)
    && (forall v :: v in xs ==> d.Root(v) in rel && xs[v] == rel[d.Root(v)])
  }

  lemma CopiedStep(d: Drawing, rel: map<Id, real>, xs: map<Id, real>, i: nat, k: nat, v: Id)
    requires Next(d.s, i, k, v, i, k + 1) && Copied(d, rel, xs, i, k)
    requires d.Root(v) in rel && d.Root(d.Root(v)) == d.Root(v)
    ensures d.Root(v) in xs && Copied(d, rel, xs[v := xs[d.Root(v)]], i, k + 1)
  {
    hide Sheet.Before, Drawing.Root, Sheet.L, Sheet.P;
  }

  /** The nodes before (i, k) have been moved with their class. */
  ghost predicate Moved(d: Drawing, rel: map<Id, real>, sink: map<Id, Id>, shift: map<Id, real>, xs: map<Id, real>, i: nat, k: nat) {
    && xs.Keys == d.s.pos.Keys
    && (forall v :: v in d.s.pos ==> Shifts(d, rel, sink, shift, v))
    && (forall v :: v in d.s.pos ==> xs[v] == if d.s.Before(v, i, k) then Final(d, rel, sink, shift, v) else rel[d.Root(v)])
  }

  lemma MovedStep(d: Drawing, rel: map<Id, real>, sink: map<Id, Id>, shift: map<Id, real>, xs: map<Id, real>, i: nat, k: nat, v: Id)
    requires Next(d.s, i, k, v, i, k + 1) && Moved(d, rel, sink, shift, xs, i, k)
    ensures v in xs && d.Root(v) in sink
    ensures Moved(d, rel, sink, shift, xs[v := xs[v] + ShiftOf(shift, sink[d.Root(v)])], i, k + 1)
  {
    assert !d.s.Before(v, i, k);
    hide Sheet.Before, Drawing.Root, ShiftOf, Sheet.L, Sheet.P;
  }

  lemma BeforeTurn(s: Sheet, i: nat)
    requires s.Valid() && i < |s.layering|
    ensures forall v :: v in s.pos ==> (s.Before(v, i, |s.layering[i]|) <==> s.Before(v, i + 1, 0))
  {
  }

  lemma BeforeEnds(s: Sheet)
    requires s.Valid()
    ensures forall v :: v in s.pos ==> s.Before(v, |s.layering|, 0) && !s.Before(v, 0, 0)
  {
  }

  lemma Turns(d: Drawing, rel: map<Id, real>, sink: map<Id, Id>, maybeShift: map<(Id, Id), real>, shift: map<Id, real>, xs: map<Id, real>, i: nat)
    requires d.s.Valid() && i < |d.s.layering| && Copied(d, rel, xs, i, |d.s.layering[i]|)
    requires Shifting(d, sink, maybeShift, shift, i, |d.s.layering[i]|)
    ensures Copied(d, rel, xs, i + 1, 0) && Shifting(d, sink, maybeShift, shift, i + 1, 0)
  {
    hide *;
    BeforeTurn(d.s, i);
    CopiedTurn(d, rel, xs, i, |d.s.layering[i]|, i + 1, 0);
    ShiftingTurn(d, sink, maybeShift, shift, i, |d.s.layering[i]|, i + 1, 0);
  }

  lemma CopiedTurn(d: Drawing, rel: map<Id, real>, xs: map<Id, real>, i: nat, k: nat, i': nat, k': nat)
    requires Copied(d, rel, xs, i, k) && forall v :: v in d.s.pos ==> (d.s.Before(v, i, k) <==> d.s.Before(v, i', k'))
    ensures Copied(d, rel, xs, i', k')
  {
    hide Sheet.Before, Drawing.Root;
  }

  lemma ShiftingTurn(d: Drawing, sink: map<Id, Id>, maybeShift: map<(Id, Id), real>, shift: map<Id, real>, i: nat, k: nat, i': nat, k': nat)
    requires Shifting(d, sink, maybeShift, shift, i, k)
    requires forall v :: v in d.s.pos ==> (d.s.Before(v, i, k) <==> d.s.Before(v, i', k'))
    ensures Shifting(d, sink, maybeShift, shift, i', k')
  {
    hide Sheet.Before, Heads, ShiftsBefore, Least;
  }

  lemma MovedTurn(d: Drawing, rel: map<Id, real>, sink: map<Id, Id>, shift: map<Id, real>, xs: map<Id, real>, i: nat)
    requires d.s.Valid() && i < |d.s.layering| && Moved(d, rel, sink, shift, xs, i, |d.s.layering[i]|)
    ensures Moved(d, rel, sink, shift, xs, i + 1, 0)
  {
    BeforeTurn(d.s, i);
    hide Sheet.Valid, Sheet.Before, Drawing.Root, ShiftOf, Shifts;
  }

  lemma Starts(d: Drawing, rel: map<Id, real>, sink: map<Id, Id>, maybeShift: map<(Id, Id), real>)
    requires d.s.Valid() && Placed(d, rel, sink)
    ensures Copied(d, rel, rel, 0, 0) && Shifting(d, sink, maybeShift, map[], 0, 0)
  {
    hide *;
    BeforeEnds(d.s);
    SinkKeys(d, rel, sink);
    forall v | v in rel ensures d.Root(v) == v {
      PlacedSelf(d, rel, sink, v);
    }
    CopiedStarts(d, rel);
    NoneShifted(d, sink, maybeShift);
  }

  lemma PlacedSelf(d: Drawing, rel: map<Id, real>, sink: map<Id, Id>, r: Id)
    requires Placed(d, rel, sink) && r in rel
    ensures d.Root(r) == r
  {
    hide Drawing.Root, Drawing.Left, Sheet.P, Sheet.L, Apart, HasLeft;
  }

  lemma CopiedStarts(d: Drawing, rel: map<Id, real>)
    requires rel.Keys <= d.s.pos.Keys && (forall v :: v in rel ==> d.Root(v) == v) && forall v :: v in d.s.pos ==> !d.s.Before(v, 0, 0)
    ensures Copied(d, rel, rel, 0, 0)
  {
    hide Drawing.Root, Sheet.Before;
  }

  lemma NoneShifted(d: Drawing, sink: map<Id, Id>, maybeShift: map<(Id, Id), real>)
    requires forall v :: v in d.s.pos ==> !d.s.Before(v, 0, 0)
    ensures Shifting(d, sink, maybeShift, map[], 0, 0)
  {
    hide Heads, Least, ShiftsBefore, Sheet.Before;
  }

  lemma MovedStarts(d: Drawing, rel: map<Id, real>, sink: map<Id, Id>, shift: map<Id, real>, xs: map<Id, real>)
    requires d.s.Valid() && Placed(d, rel, sink) && Copied(d, rel, xs, |d.s.layering|, 0)
    ensures Moved(d, rel, sink, shift, xs, 0, 0)
  {
    hide *;
    BeforeEnds(d.s);
    CopiedEnds(d, rel, xs);
    forall v | v in d.s.pos ensures Shifts(d, rel, sink, shift, v) && !d.s.Before(v, 0, 0) {
      PlacedRoot(d, rel, sink, v);
      ShiftsMade(d, rel, sink, shift, v);
    }
    MovedMade(d, rel, sink, shift, xs);
  }

  lemma CopiedEnds(d: Drawing, rel: map<Id, real>, xs: map<Id, real>)
    requires Copied(d, rel, xs, |d.s.layering|, 0) && forall v :: v in d.s.pos ==> d.s.Before(v, |d.s.layering|, 0)
    ensures xs.Keys == d.s.pos.Keys && forall v :: v in xs ==> d.Root(v) in rel && xs[v] == rel[d.Root(v)]
  {
    hide Drawing.Root, Sheet.Before;
  }

  lemma ShiftsMade(d: Drawing, rel: map<Id, real>, sink: map<Id, Id>, shift: map<Id, real>, v: Id)
    requires d.Root(v) in rel && d.Root(v) in sink
    ensures Shifts(d, rel, sink, shift, v)
  {
    hide Drawing.Root;
  }

  lemma MovedMade(d: Drawing, rel: map<Id, real>, sink: map<Id, Id>, shift: map<Id, real>, xs: map<Id, real>)
    requires xs.Keys == d.s.pos.Keys && forall v :: v in d.s.pos ==> d.Root(v) in rel && xs[v] == rel[d.Root(v)]
    requires forall v :: v in d.s.pos ==> Shifts(d, rel, sink, shift, v) && !d.s.Before(v, 0, 0)
    ensures Moved(d, rel, sink, shift, xs, 0, 0)
  {
    hide Drawing.Root, Sheet.Before, Shifts;
  }

  lemma MovedEnds(d: Drawing, rel: map<Id, real>, sink: map<Id, Id>, shift: map<Id, real>, xs: map<Id, real>)
    requires d.s.Valid() && Moved(d, rel, sink, shift, xs, |d.s.layering|, 0)
    ensures Shifted(d, rel, sink, shift, xs)
  {
    BeforeEnds(d.s);
    hide Sheet.Valid, Sheet.Before, Drawing.Root;
  }

  // ---------- how the coordinates turn out ----------

  lemma ShiftedAt(d: Drawing, rel: map<Id, real>, sink: map<Id, Id>, shift: map<Id, real>, xs: map<Id, real>, v: Id)
    requires Shifted(d, rel, sink, shift, xs) && v in d.s.pos
    ensures v in xs && d.Root(v) in rel && d.Root(v) in sink && xs[v] == rel[d.Root(v)] + ShiftOf(shift, sink[d.Root(v)])
  {
    hide Drawing.Root, ShiftOf;
  }

  lemma ShiftedKeys(d: Drawing, rel: map<Id, real>, sink: map<Id, Id>, shift: map<Id, real>, xs: map<Id, real>)
    requires Shifted(d, rel, sink, shift, xs)
    ensures xs.Keys == d.s.pos.Keys
  {
    hide Drawing.Root, ShiftOf;
  }

  lemma PlacedRoot(d: Drawing, rel: map<Id, real>, sink: map<Id, Id>, v: Id)
    requires Placed(d, rel, sink) && v in d.s.pos
    ensures d.Root(v) in rel && d.Root(v) in d.s.pos && d.Root(v) in sink && d.Root(d.Root(v)) == d.Root(v) && d.s.pos.Keys == sink.Keys
    ensures sink[d.Root(v)] != d.Root(v) ==> HasLeft(d, d.Root(v), |d.s.layering|)
  {
    hide Drawing.Root, Drawing.Left, Sheet.P, Sheet.L, Apart, HasLeft;
  }

  lemma PlacedNext(d: Drawing, rel: map<Id, real>, sink: map<Id, Id>, w: Id)
    requires Placed(d, rel, sink) && w in d.s.pos && d.s.P(w) > 0
    ensures d.Left(w) in d.s.pos && Apart(d, rel, sink, d.Root(w), w)
  {
    hide Drawing.Root, Drawing.Left, Sheet.P, Sheet.L, Apart, HasLeft;
  }

  lemma FirstPart(d: Drawing, w: Id)
    requires First(d, w)
    ensures w in d.s.pos && d.s.P(w) > 0
  {
    hide Drawing.Root, Sheet.P, Sheet.L;
  }

  lemma ApartParts(d: Drawing, rel: map<Id, real>, sink: map<Id, Id>, r: Id, w: Id)
    requires Apart(d, rel, sink, r, w)
    ensures var u := d.Root(d.Left(w)); u in rel && u in sink && r in rel && r in sink
    ensures var u := d.Root(d.Left(w)); sink[r] == sink[u] ==> rel[r] >= rel[u] + d.sep(d.Left(w)) + d.sep(w)
    ensures First(d, w) ==> sink[r] == sink[d.Root(d.Left(w))]
  {
    hide Drawing.Root, Drawing.Left, First;
  }

  lemma ClassIs(d: Drawing, sink: map<Id, Id>, v: Id)
    requires d.Root(v) in sink
    ensures ClassOf(d, sink, v) == sink[d.Root(v)]
  {
    hide Drawing.Root;
  }

  lemma ClassesSo(d: Drawing, rel: map<Id, real>, sink: map<Id, Id>)
    requires Placed(d, rel, sink) && d.s.pos.Keys <= sink.Keys
    ensures Classes(d, sink)
  {
    hide *;
    forall v | v in d.s.pos && !HasLeft(d, d.Root(v), |d.s.layering|) ensures ClassOf(d, sink, v) == d.Root(v) {
      PlacedRoot(d, rel, sink, v);
      ClassIs(d, sink, v);
    }
    forall w | w in d.s.pos && First(d, w) ensures ClassOf(d, sink, d.Left(w)) == ClassOf(d, sink, w) {
      FirstPart(d, w);
      PlacedNext(d, rel, sink, w);
      ApartParts(d, rel, sink, d.Root(w), w);
      ClassIs(d, sink, w);
      ClassIs(d, sink, d.Left(w));
    }
    ClassesMade(d, sink);
  }

  lemma ClassesMade(d: Drawing, sink: map<Id, Id>)
    requires d.s.pos.Keys <= sink.Keys
    requires forall v :: v in d.s.pos && !HasLeft(d, d.Root(v), |d.s.layering|) ==> ClassOf(d, sink, v) == d.Root(v)
    requires forall w :: w in d.s.pos && First(d, w) ==> ClassOf(d, sink, d.Left(w)) == ClassOf(d, sink, w)
    ensures Classes(d, sink)
  {
    hide Drawing.Root, Drawing.Left, First, HasLeft, ClassOf;
  }

  lemma HeadsSo(d: Drawing, up: map<Id, Id>, rho: map<Id, real>, sink: map<Id, Id>, v: Id)
    requires Classed(d, up, rho, sink) && v in d.s.pos
    ensures var c := ClassOf(d, sink, v); c in d.s.pos && Heads(d, sink, c)
  {
    hide *;
    var c := ClassOf(d, sink, v);
    HeadIs(d, up, rho, sink, v);
    RootAt(d, up, rho, sink, c);
    ClassIs(d, sink, c);
    HeadsMade(d, sink, c);
  }

  lemma HeadsMade(d: Drawing, sink: map<Id, Id>, c: Id)
    requires c in sink && d.Root(c) == c && sink[c] == c
    ensures Heads(d, sink, c)
  {
    hide Drawing.Root;
  }

  /** A class is shifted no further towards another one, whose head comes before, than has been noted. */
  lemma ShiftBound(d: Drawing, sink: map<Id, Id>, notes: map<(Id, Id), real>, shift: map<Id, real>, cu: Id, cv: Id)
    requires d.s.Valid() && Shifting(d, sink, notes, shift, |d.s.layering|, 0) && Heads(d, sink, cu) && Heads(d, sink, cv)
    requires cu in d.s.pos && cv in d.s.pos && d.s.L(cv) < d.s.L(cu) && (cu, cv) in notes
    ensures ShiftOf(shift, cu) <= notes[(cu, cv)] + ShiftOf(shift, cv)
  {
    BeforeEnds(d.s);
    hide Sheet.Valid, Heads, Sheet.L, Sheet.P, Drawing.Root;
    assert Least(notes, ShiftsBefore(d, shift, cu), cu, shift[cu]);
    assert cv in ShiftsBefore(d, shift, cu) && shift[cu] <= Term(notes, ShiftsBefore(d, shift, cu), cu, cv);
  }

  /** What is noted for the class cu about another one comes from neighbours of these classes, so that one's head comes before. */
  lemma NotedBefore(d: Drawing, up: map<Id, Id>, rho: map<Id, real>, rel: map<Id, real>, sink: map<Id, Id>, at: map<Id, real>,
                    notes: map<(Id, Id), real>, cu: Id, cv: Id)
    requires Classed(d, up, rho, sink) && Placed(d, rel, sink) && Noted(d, rel, sink, at, notes) && (cu, cv) in notes
    ensures cu in d.s.pos && cv in d.s.pos && Heads(d, sink, cv) && d.s.L(cv) < d.s.L(cu)
  {
    hide *;
    var y := NotedAbout(d, rel, sink, at, notes, (cu, cv));
    var z := d.Left(y);
    PlacedNext(d, rel, sink, y);
    PlacedRoot(d, rel, sink, y);
    PlacedRoot(d, rel, sink, z);
    ClassIs(d, sink, y);
    ClassIs(d, sink, z);
    BesideIs(d, y);
    HeadsSo(d, up, rho, sink, y);
    HeadsSo(d, up, rho, sink, z);
    EarlierHead(d, up, rho, sink, y);
    HeadRowIs(d, sink, y);
    HeadRowIs(d, sink, z);
  }

  lemma NotedAbout(d: Drawing, rel: map<Id, real>, sink: map<Id, Id>, at: map<Id, real>, notes: map<(Id, Id), real>, p: (Id, Id)) returns (y: Id)
    requires Noted(d, rel, sink, at, notes) && p in notes
    ensures y in d.s.pos && d.s.P(y) > 0 && d.Root(y) in sink && Beside(d, y) in sink
    ensures p == (sink[Beside(d, y)], sink[d.Root(y)]) && p.0 != p.1
  {
    hide NoteFits, LookedAt, Leftmost, LeftOver, Sheet.P, Sheet.L, Drawing.Root, Drawing.Left, Beside;
    assert NoteFrom(d, rel, sink, at, p, notes[p]);
    y :| y in at && Foreign(d, sink, y) && Pair(d, sink, y) == p && notes[p] == LeftOver(d, rel, at, y);
    assert LookedAt(d, rel, sink, rel.Keys, at, y);
    LookedParts(d, rel, sink, rel.Keys, at, y);
  }

  /** The shift of c is the least of the amounts noted for it, each added to the shift of the class it is about; or zero if there are none. */
  ghost predicate ShiftedLeast(notes: map<(Id, Id), real>, shift: map<Id, real>, c: Id) {
    && c in shift
    && (forall u :: (c, u) in notes ==> u in shift && shift[c] <= notes[(c, u)] + shift[u])
    && ((exists u :: (c, u) in notes && u in shift && shift[c] == notes[(c, u)] + shift[u]) || (shift[c] == 0.0 && forall u :: (c, u) !in notes))
  }

  /** So it is for every class: the shifts of the others are known by then. */
  lemma ShiftIs(d: Drawing, up: map<Id, Id>, rho: map<Id, real>, rel: map<Id, real>, sink: map<Id, Id>, at: map<Id, real>,
                notes: map<(Id, Id), real>, shift: map<Id, real>, c: Id)
    requires Classed(d, up, rho, sink) && Placed(d, rel, sink) && Noted(d, rel, sink, at, notes)
    requires Shifting(d, sink, notes, shift, |d.s.layering|, 0) && c in d.s.pos && Heads(d, sink, c)
    ensures ShiftedLeast(notes, shift, c)
  {
    hide *;
    forall u | (c, u) in notes ensures u in d.s.pos && Heads(d, sink, u) && d.s.L(u) < d.s.L(c) {
      NotedBefore(d, up, rho, rel, sink, at, notes, c, u);
    }
    ClassedParts(d, up, rho, sink);
    LeastShift(d, sink, notes, shift, c);
  }

  lemma LeastShift(d: Drawing, sink: map<Id, Id>, notes: map<(Id, Id), real>, shift: map<Id, real>, c: Id)
    requires d.s.Valid() && Shifting(d, sink, notes, shift, |d.s.layering|, 0) && c in d.s.pos && Heads(d, sink, c)
    requires forall u :: (c, u) in notes ==> u in d.s.pos && Heads(d, sink, u) && d.s.L(u) < d.s.L(c)
    ensures ShiftedLeast(notes, shift, c)
  {
    hide *;
    BeforeEnds(d.s);
    HeadShifted(d, sink, notes, shift, c);
    forall u | (c, u) in notes ensures u in shift && Term(notes, ShiftsBefore(d, shift, c), c, u) == notes[(c, u)] + shift[u] {
      HeadShifted(d, sink, notes, shift, u);
      TermIs(d, notes, shift, c, u);
    }
    ShiftedLeastMade(notes, ShiftsBefore(d, shift, c), shift, c);
  }

  lemma HeadShifted(d: Drawing, sink: map<Id, Id>, notes: map<(Id, Id), real>, shift: map<Id, real>, c: Id)
    requires Shifting(d, sink, notes, shift, |d.s.layering|, 0) && c in d.s.pos && Heads(d, sink, c) && d.s.Before(c, |d.s.layering|, 0)
    ensures c in shift && Least(notes, ShiftsBefore(d, shift, c), c, shift[c])
  {
    hide Heads, Least, ShiftsBefore, Sheet.Before;
  }

  lemma TermIs(d: Drawing, notes: map<(Id, Id), real>, shift: map<Id, real>, c: Id, u: Id)
    requires (c, u) in notes && u in shift && d.s.L(u) < d.s.L(c)
    ensures Term(notes, ShiftsBefore(d, shift, c), c, u) == notes[(c, u)] + shift[u]
  {
    hide Sheet.L, Sheet.P;
    assert d.s.Before(u, d.s.L(c), d.s.P(c));
  }

  lemma ShiftedLeastMade(notes: map<(Id, Id), real>, before: map<Id, real>, shift: map<Id, real>, c: Id)
    requires c in shift && Least(notes, before, c, shift[c])
    requires forall u :: (c, u) in notes ==> u in shift && Term(notes, before, c, u) == notes[(c, u)] + shift[u]
    ensures ShiftedLeast(notes, shift, c)
  {
    hide Term;
  }

  /** Neighbours keep their distance: within a class by their places, between classes by the shifts. */
  lemma KeepsDistance(d: Drawing, up: map<Id, Id>, rho: map<Id, real>, rel: map<Id, real>, sink: map<Id, Id>, at: map<Id, real>,
                      notes: map<(Id, Id), real>, shift: map<Id, real>, xs: map<Id, real>, w: Id)
    requires Classed(d, up, rho, sink) && Placed(d, rel, sink) && Noted(d, rel, sink, at, notes)
    requires Shifted(d, rel, sink, shift, xs) && Shifting(d, sink, notes, shift, |d.s.layering|, 0)
    requires w in d.s.pos && d.s.P(w) > 0
    ensures d.Left(w) in d.s.pos && d.Left(w) in xs && w in xs && xs[w] >= xs[d.Left(w)] + d.sep(d.Left(w)) + d.sep(w)
  {
    hide *;
    var z := d.Left(w);
    PlacedNext(d, rel, sink, w);
    ApartParts(d, rel, sink, d.Root(w), w);
    ShiftedAt(d, rel, sink, shift, xs, w);
    ShiftedAt(d, rel, sink, shift, xs, z);
    if sink[d.Root(w)] != sink[d.Root(z)] {
      ClassIs(d, sink, w);
      ClassIs(d, sink, z);
      BesideIs(d, w);
      ClassedParts(d, up, rho, sink);
      NoteBound(d, rel, sink, at, notes, w);
      HeadsSo(d, up, rho, sink, w);
      HeadsSo(d, up, rho, sink, z);
      EarlierHead(d, up, rho, sink, w);
      HeadRowIs(d, sink, w);
      HeadRowIs(d, sink, z);
      ShiftBound(d, sink, notes, shift, sink[d.Root(z)], sink[d.Root(w)]);
    }
  }

  lemma SpacedSo(d: Drawing, up: map<Id, Id>, rho: map<Id, real>, rel: map<Id, real>, sink: map<Id, Id>, at: map<Id, real>,
                 notes: map<(Id, Id), real>, shift: map<Id, real>, xs: map<Id, real>)
    requires d.Valid(up, rho) && Placed(d, rel, sink) && Noted(d, rel, sink, at, notes) && d.s.pos.Keys <= sink.Keys
    requires Shifted(d, rel, sink, shift, xs) && Shifting(d, sink, notes, shift, |d.s.layering|, 0)
    ensures Spaced(d, xs) && Classes(d, sink)
  {
    hide *;
    ClassesSo(d, rel, sink);
    ClassedMade(d, up, rho, sink);
    ShiftedKeys(d, rel, sink, shift, xs);
    forall v, w | v in d.s.pos && w in d.s.pos && d.Root(v) == d.Root(w) ensures xs[v] == xs[w] {
      ShiftedAt(d, rel, sink, shift, xs, v);
      ShiftedAt(d, rel, sink, shift, xs, w);
    }
    forall w | w in d.s.pos && d.s.P(w) > 0
      ensures d.Left(w) in d.s.pos && xs[w] >= xs[d.Left(w)] + d.sep(d.Left(w)) + d.sep(w)
    {
      KeepsDistance(d, up, rho, rel, sink, at, notes, shift, xs, w);
    }
    SpacedMade(d, xs);
  }

  lemma ClassedMade(d: Drawing, up: map<Id, Id>, rho: map<Id, real>, sink: map<Id, Id>)
    requires d.Valid(up, rho) && Classes(d, sink)
    ensures Classed(d, up, rho, sink)
  {
    hide Drawing.Valid, Classes;
  }

  /** How the x coordinates come about: blocks are as far left as their classes allow, relative to the heads of these, what is left over between
      classes is noted, and each class is shifted by the least amount noted for it. */
  ghost predicate Compacted(d: Drawing, xs: map<Id, real>) {
    exists rel, sink, at, notes, shift ::
      && Placed(d, rel, sink) && Classes(d, sink) && Noted(d, rel, sink, at, notes)
      && Shifting(d, sink, notes, shift, |d.s.layering|, 0) && Shifted(d, rel, sink, shift, xs)
  }

  lemma CompactedIs(d: Drawing, rel: map<Id, real>, sink: map<Id, Id>, at: map<Id, real>, notes: map<(Id, Id), real>, shift: map<Id, real>,
                    xs: map<Id, real>)
    requires Placed(d, rel, sink) && Classes(d, sink) && Noted(d, rel, sink, at, notes)
    requires Shifting(d, sink, notes, shift, |d.s.layering|, 0) && Shifted(d, rel, sink, shift, xs)
    ensures Compacted(d, xs)
  {
    hide Placed, Classes, Noted, Shifting, Shifted;
  }

  /** The x coordinates of all nodes. In a block they are equal, and neighbours in a layer are at least their separations apart. They come
      about as follows: rel puts every block as far left as its neighbours of the same class allow; what is left over between blocks of
      different classes is noted; and each class is shifted by the least amount noted for it. */
  method HorizontalCompaction(d: Drawing, ghost up: map<Id, Id>)
    returns (xs: map<Id, real>, ghost rel: map<Id, real>, ghost sink: map<Id, Id>, ghost at: map<Id, real>,
             ghost maybeShift: map<(Id, Id), real>, ghost shift: map<Id, real>)
    requires Chained(d.s, up, d.root, d.align)
    ensures Spaced(d, xs) && Classes(d, sink)
    ensures Placed(d, rel, sink) && Noted(d, rel, sink, at, maybeShift)
    ensures Shifted(d, rel, sink, shift, xs) && Shifting(d, sink, maybeShift, shift, |d.s.layering|, 0)
  {
    hide *;
    BlocksParts(d.s, up, d.root, d.align);
    ghost var rho := Columns(d.s, up, d.root, d.align);
    ValidMade(d, up, rho);
    var xs0, sinks, notes;
    xs0, sinks, notes, at := PlaceAll(d, up);
    rel, sink, maybeShift := xs0, sinks, notes;
    var shifts: map<Id, real> := map[];
    xs := xs0;
    Starts(d, rel, sink, maybeShift);
    for i := 0 to |d.s.layering|
      invariant Copied(d, rel, xs, i, 0) && Shifting(d, sink, maybeShift, shifts, i, 0)
    {
      for k := 0 to |d.s.layering[i]|
        invariant Copied(d, rel, xs, i, k) && Shifting(d, sink, maybeShift, shifts, i, k)
      {
        InPlace(d.s, i, k);
        var v := d.s.layering[i][k];
        NextIs(d.s, i, k, v);
        PlaceOf(d.s, i, k);
        PlacedRoot(d, rel, sink, v);
        CopiedStep(d, rel, xs, i, k, v);
        xs := xs[v := xs[d.Root(v)]];
        if Heads(d, sinks, v) {
          var minShift := MinShift(notes, shifts, v);
          ShiftingStep(d, sink, maybeShift, shifts, i, k, v, minShift);
          shifts := shifts[v := minShift];
        } else {
          ShiftingSkip(d, sink, maybeShift, shifts, i, k, v);
        }
      }
      Turns(d, rel, sink, maybeShift, shifts, xs, i);
    }
    shift := shifts;
    MovedStarts(d, rel, sink, shift, xs);
    for i := 0 to |d.s.layering|
      invariant Moved(d, rel, sink, shift, xs, i, 0)
    {
      for k := 0 to |d.s.layering[i]|
        invariant Moved(d, rel, sink, shift, xs, i, k)
      {
        InPlace(d.s, i, k);
        var v := d.s.layering[i][k];
        NextIs(d.s, i, k, v);
        MovedStep(d, rel, sink, shift, xs, i, k, v);
        xs := xs[v := xs[v] + ShiftOf(shifts, sinks[d.Root(v)])];
      }
      MovedTurn(d, rel, sink, shift, xs, i);
    }
    MovedEnds(d, rel, sink, shift, xs);
    SinkKeys(d, rel, sink);
    SpacedSo(d, up, rho, rel, sink, at, maybeShift, shift, xs);
  }

  lemma SinkKeys(d: Drawing, rel: map<Id, real>, sink: map<Id, Id>)
    requires Placed(d, rel, sink)
    ensures d.s.pos.Keys <= sink.Keys && rel.Keys <= d.s.pos.Keys
  {
    hide Drawing.Root, Drawing.Left, Sheet.P, Sheet.L, Apart, HasLeft;
  }
}
