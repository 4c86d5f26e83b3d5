/** The `orderBy` of the store's list queries: a set of records laid out as a
    sequence in a given order. Ties keep whatever order the insertion gives;
    the store does not promise one either. */
module Listing {

  /** `before(a, b)`: `a` may be listed ahead of `b`. */
  predicate Ordered<T>(s: seq<T>, before: (T, T) -> bool) {
    forall i, j | 0 <= i < j < |s| :: before(s[i], s[j])
  }

  ghost predicate IsTotalPreorder<T(!new)>(before: (T, T) -> bool) {
    (forall a, b :: before(a, b) || before(b, a))
    && (forall a, b, c :: before(a, b) && before(b, c) ==> before(a, c))
  }

  /** Puts `x` into an ordered sequence. */
  function Insert<T(!new)>(x: T, s: seq<T>, before: (T, T) -> bool): (r: seq<T>)
    requires IsTotalPreorder(before) && Ordered(s, before)
    ensures Ordered(r, before) && multiset(r) == multiset(s) + multiset{x}
  {
    if s == [] then [x]
    else if before(x, s[0]) then
      assert forall j | 0 < j < |s| :: before(s[0], s[j]);
      [x] + s
    else
      var t := Insert(x, s[1..], before);
      assert s == [s[0]] + s[1..];
      HeadBeforeAll(s[0], t, s[1..], x, before);
      [s[0]] + t
  }

  /** Whatever goes ahead of `x` and of all of `s` goes ahead of a
      rearrangement of `s` with `x`. */
  lemma HeadBeforeAll<T>(y: T, t: seq<T>, s: seq<T>, x: T, before: (T, T) -> bool)
    requires multiset(t) == multiset(s) + multiset{x}
    requires before(y, x) && forall j | 0 <= j < |s| :: before(y, s[j])
    ensures forall k | 0 <= k < |t| :: before(y, t[k])
  {
    forall k | 0 <= k < |t| ensures before(y, t[k]) {
      assert t[k] in multiset(s) + multiset{x};
      if t[k] != x {
        var j :| 0 <= j < |s| && s[j] == t[k];
      }
    }
  }

  /** The records of `items`, each once, in `before` order. */
  method OrderBy<T(==,!new)>(items: set<T>, before: (T, T) -> bool) returns (r: seq<T>)
    requires IsTotalPreorder(before)
    ensures Ordered(r, before)
    ensures |r| == |items| && forall x :: x in r <==> x in items
  {
    var rest := items;
    r := [];
    while rest != {}
      invariant rest <= items
      invariant Ordered(r, before)
      invariant multiset(r) == multiset(items - rest)
      decreases |rest|
    {
      var x :| x in rest;
      assert items - (rest - {x}) == (items - rest) + {x};
      r := Insert(x, r, before);
      rest := rest - {x};
    }
    assert items - rest == items;
    assert |multiset(r)| == |r|;
    forall x ensures x in r <==> x in items {
      assert x in r <==> x in multiset(r);
    }
  }
}
