/** Optional values and results, a list backwards, and the first element of a finite set. */
module Wrappers {

  datatype Option<+T> = None | Some(value: T) {
    function GetOr(default: T): T {
      match this
      case Some(v) => v
      case None => default
    }
  }

  datatype Error = NotFound | Invalid

  datatype Result<+T> = Ok(value: T) | Err(error: Error)

  function Reversed<T>(s: seq<T>): (r: seq<T>)
    ensures |r| == |s| && forall i :: 0 <= i < |r| ==> r[i] == s[|s| - 1 - i]
  {
    if s == [] then [] else [s[|s| - 1]] + Reversed(s[..|s| - 1])
  }

  /** `before` orders the elements of `s` strictly and totally. */
  ghost predicate Orders<T(!new)>(s: set<T>, before: (T, T) -> bool) {
    && (forall a, b :: a in s && b in s && a != b ==> before(a, b) != before(b, a))
    && (forall a, b, c :: a in s && b in s && c in s && before(a, b) && before(b, c) && a != c ==> before(a, c))
  }

  ghost predicate IsFirst<T(!new)>(s: set<T>, before: (T, T) -> bool, x: T) {
    x in s && forall y :: y in s && y != x ==> before(x, y)
  }

  lemma {:induction false} FirstExists<T(!new)>(s: set<T>, before: (T, T) -> bool)
    requires s != {} && Orders(s, before)
    ensures exists x :: IsFirst(s, before, x)
  {
    var x :| x in s;
    var rest := s - {x};
    if rest != {} {
      FirstExists(rest, before);
      var y :| IsFirst(rest, before, y);
      assert IsFirst(s, before, if before(y, x) then y else x);
    } else {
      assert s == {x};
      assert IsFirst(s, before, x);
    }
  }

  /** The element an `ORDER BY … LIMIT 1` over `s` returns. */
  ghost function First<T(!new)>(s: set<T>, before: (T, T) -> bool): (x: T)
    requires s != {} && Orders(s, before)
    ensures IsFirst(s, before, x)
  {
    FirstExists(s, before);
    var x :| IsFirst(s, before, x);
    x
  }

  lemma FirstIsUnique<T(!new)>(s: set<T>, before: (T, T) -> bool, x: T)
    requires Orders(s, before) && IsFirst(s, before, x)
    ensures x == First(s, before)
  {
  }

  /** Finds the first element by comparing each with the best so far. */
  method FindFirst<T(==, !new)>(s: set<T>, before: (T, T) -> bool) returns (x: T)
    requires s != {} && Orders(s, before)
    ensures x == First(s, before)
  {
    x :| x in s;
    var rest := s - {x};
    while rest != {}
      invariant rest <= s && x in s
      invariant forall y :: y in s - rest && y != x ==> before(x, y)
      decreases rest
    {
      var y :| y in rest;
      if before(y, x) {
        x := y;
      }
      rest := rest - {y};
    }
    FirstIsUnique(s, before, x);
  }

  /** `order` lists every element of `s` once. */
  ghost predicate Enumerates<T(!new)>(order: seq<T>, s: set<T>) {
    && (forall x :: x in order <==> x in s)
    && forall i, j :: 0 <= i < j < |order| ==> order[i] != order[j]
  }

  /** Lists a set, in some order. */
  method Enumerate<T(==, !new)>(s: set<T>) returns (order: seq<T>)
    ensures Enumerates(order, s)
  {
    order := [];
    var rest := s;
    while rest != {}
      invariant rest <= s
      invariant Enumerates(order, s - rest)
      decreases rest
    {
      var x :| x in rest;
      order := order + [x];
      rest := rest - {x};
    }
  }
}
