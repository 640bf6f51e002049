/** Shared vocabulary: optional values, listings of finite sets, and the extended numbers
    that priorities and distances range over. */
module Base {
  datatype Option<+T> = None | Some(value: T)

  datatype Result<+T, +E> = Ok(value: T) | Err(error: E)

  ghost predicate NoDup<T>(q: seq<T>) {
    forall i, j :: 0 <= i < j < |q| ==> q[i] != q[j]
  }

  /** q lists exactly the elements of s, once each. */
  ghost predicate Lists<T>(q: seq<T>, s: set<T>) {
    NoDup(q) && (forall x | x in q :: x in s) && (forall x | x in s :: x in q)
  }

  /** The iteration order of a JavaScript object is not relied on anywhere: a loop over the
      keys of an object is a loop over some listing of them. */
  method Listing<T(==)>(s: set<T>) returns (q: seq<T>)
    ensures Lists(q, s) && |q| == |s|
  {
    q := [];
    var rest := s;
    while rest != {}
      invariant Lists(q, s - rest) && rest <= s
      invariant |q| + |rest| == |s|
      decreases rest
    {
      var x :| x in rest;
      q := q + [x];
      rest := rest - {x};
    }
  }

  /** A listing has as many entries as the set has elements. */
  lemma {:induction false} ListsSize<T>(q: seq<T>, s: set<T>)
    requires Lists(q, s)
    ensures |q| == |s|
  {
    if q == [] {
      assert s == {};
    } else {
      var x := q[|q| - 1];
      assert x in q;
      forall y ensures y in q[..|q| - 1] <==> y in s - {x} {
        if y in s - {x} {
          var i :| 0 <= i < |q| && q[i] == y;
          assert q[..|q| - 1][i] == y;
        }
      }
      ListsSize(q[..|q| - 1], s - {x});
    }
  }

  /** The first n entries of q. */
  ghost function Upto<T>(q: seq<T>, n: nat): set<T>
    requires n <= |q|
  {
    set x | x in q[..n]
  }

  /** Going through a listing, each entry is new, and at the end none is missing. */
  lemma UptoStep<T>(q: seq<T>, s: set<T>, n: nat)
    requires Lists(q, s) && n < |q|
    ensures q[n] in s && q[n] !in Upto(q, n) && Upto(q, n + 1) == Upto(q, n) + {q[n]} && Upto(q, n) <= s
  {
    assert q[..n + 1] == q[..n] + [q[n]];
  }

  lemma LaterDiffer<T>(q: seq<T>, s: set<T>, n: nat)
    requires Lists(q, s) && n < |q|
    ensures forall j :: n < j < |q| ==> q[j] != q[n]
  {
  }

  lemma UptoEnds<T>(q: seq<T>, s: set<T>)
    requires Lists(q, s)
    ensures Upto(q, 0) == {} && Upto(q, |q|) == s
  {
    assert q[..|q|] == q;
  }

  /** Exact numbers with a point at infinity, ordered as JavaScript orders them. */
  datatype Num = Fin(v: real) | Inf {
    predicate Less(other: Num) {
      Fin? && (other.Inf? || v < other.v)
    }

    function Plus(other: Num): Num {
      if Fin? && other.Fin? then Fin(v + other.v) else Inf
    }
  }
}
