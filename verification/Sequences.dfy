/** Stable sorting and flattening of sequences. */
module Sequences {
  function Flatten<T>(ss: seq<seq<T>>): seq<T> {
    if ss == [] then [] else Flatten(ss[..|ss| - 1]) + ss[|ss| - 1]
  }

  /** Puts `x` behind every element that may stay before it: with `Sort`, a stable sort. */
  function Place<T>(s: seq<T>, x: T, leq: (T, T) -> bool): seq<T> {
    if s == [] || leq(s[|s| - 1], x) then s + [x] else Place(s[..|s| - 1], x, leq) + [s[|s| - 1]]
  }

  function Sort<T>(s: seq<T>, leq: (T, T) -> bool): seq<T> {
    if s == [] then [] else Place(Sort(s[..|s| - 1], leq), s[|s| - 1], leq)
  }

  ghost predicate Ordered<T>(s: seq<T>, leq: (T, T) -> bool) {
    forall i, j :: 0 <= i < j < |s| ==> leq(s[i], s[j])
  }

  ghost predicate Preorder<T(!new)>(leq: (T, T) -> bool) {
    && (forall a, b :: leq(a, b) || leq(b, a))
    && (forall a, b, c :: leq(a, b) && leq(b, c) ==> leq(a, c))
  }

  ghost predicate UpTo<T>(s: seq<T>, x: T, leq: (T, T) -> bool) {
    forall y :: y in s ==> leq(y, x)
  }

  lemma {:induction false} PlaceKeeps<T>(s: seq<T>, x: T, leq: (T, T) -> bool)
    ensures multiset(Place(s, x, leq)) == multiset(s) + multiset{x}
  {
    if s != [] && !leq(s[|s| - 1], x) {
      PlaceKeeps(s[..|s| - 1], x, leq);
      assert s == s[..|s| - 1] + [s[|s| - 1]];
    }
  }

  lemma PlaceMembers<T>(s: seq<T>, x: T, leq: (T, T) -> bool)
    ensures forall y :: y in Place(s, x, leq) <==> y in s || y == x
  {
    PlaceKeeps(s, x, leq);
    hide Place;
    forall y ensures y in Place(s, x, leq) <==> y in s || y == x {
      assert y in Place(s, x, leq) <==> y in multiset(Place(s, x, leq));
    }
  }

  lemma OrderedAppend<T>(s: seq<T>, x: T, leq: (T, T) -> bool)
    requires Ordered(s, leq) && UpTo(s, x, leq)
    ensures Ordered(s + [x], leq)
  {
  }

  lemma OrderedLast<T>(s: seq<T>, init: seq<T>, last: T, leq: (T, T) -> bool)
    requires Ordered(s, leq) && s == init + [last]
    ensures Ordered(init, leq) && UpTo(init, last, leq)
  {
    forall i | 0 <= i < |init| ensures leq(init[i], last) {
      assert s[i] == init[i] && s[|init|] == last;
    }
    forall i, j | 0 <= i < j < |init| ensures leq(init[i], init[j]) {
      assert s[i] == init[i] && s[j] == init[j];
    }
  }

  lemma {:induction false} PlaceSorts<T(!new)>(s: seq<T>, x: T, leq: (T, T) -> bool)
    requires Preorder(leq) && Ordered(s, leq)
    ensures Ordered(Place(s, x, leq), leq)
  {
    if s == [] {
    } else {
      var init, last := s[..|s| - 1], s[|s| - 1];
      assert s == init + [last];
      OrderedLast(s, init, last, leq);
      if leq(last, x) {
        assert UpTo(s, x, leq);
        hide Ordered, Preorder;
        OrderedAppend(s, x, leq);
      } else {
        assert leq(x, last);
        hide Ordered;
        PlaceSorts(init, x, leq);
        hide Preorder;
        PlaceMembers(init, x, leq);
        OrderedAppend(Place(init, x, leq), last, leq);
      }
    }
  }

  lemma {:induction false} SortKeeps<T>(s: seq<T>, leq: (T, T) -> bool)
    ensures multiset(Sort(s, leq)) == multiset(s)
  {
    if s != [] {
      var init, last := s[..|s| - 1], s[|s| - 1];
      SortKeeps(init, leq);
      PlaceKeeps(Sort(init, leq), last, leq);
      hide Place;
      assert s == init + [last];
    }
  }

  /** The result is in order and holds the same elements. */
  lemma {:induction false} SortSorts<T(!new)>(s: seq<T>, leq: (T, T) -> bool)
    requires Preorder(leq)
    ensures Ordered(Sort(s, leq), leq) && multiset(Sort(s, leq)) == multiset(s)
  {
    SortKeeps(s, leq);
    if s != [] {
      hide Ordered, Preorder, Place;
      SortSorts(s[..|s| - 1], leq);
      PlaceSorts(Sort(s[..|s| - 1], leq), s[|s| - 1], leq);
    }
  }

  lemma SortMembers<T(!new)>(s: seq<T>, leq: (T, T) -> bool)
    requires Preorder(leq)
    ensures |Sort(s, leq)| == |s| && forall x :: x in Sort(s, leq) <==> x in s
  {
    SortSorts(s, leq);
    hide Sort, Preorder, Ordered;
    assert |multiset(Sort(s, leq))| == |multiset(s)|;
    forall x ensures x in Sort(s, leq) <==> x in s {
      assert x in Sort(s, leq) <==> x in multiset(Sort(s, leq));
      assert x in s <==> x in multiset(s);
    }
  }

  lemma {:induction false} PlaceAfter<T>(a: seq<T>, s: seq<T>, x: T, leq: (T, T) -> bool)
    requires UpTo(a, x, leq)
    ensures Place(a + s, x, leq) == a + Place(s, x, leq)
  {
    if s == [] {
      assert a + s == a;
    } else {
      assert (a + s)[..|a + s| - 1] == a + s[..|s| - 1];
      PlaceAfter(a, s[..|s| - 1], x, leq);
    }
  }

  /** What may all come later sorts behind. */
  lemma {:induction false} SortAppends<T(!new)>(a: seq<T>, b: seq<T>, leq: (T, T) -> bool)
    requires Preorder(leq) && forall x, y :: x in a && y in b ==> leq(x, y)
    ensures Sort(a + b, leq) == Sort(a, leq) + Sort(b, leq)
  {
    if b == [] {
      assert a + b == a;
    } else {
      var n := |b| - 1;
      assert (a + b)[..|a + b| - 1] == a + b[..n];
      SortAppends(a, b[..n], leq);
      SortMembers(a, leq);
      assert b[n] in b;
      hide Preorder;
      PlaceAfter(Sort(a, leq), Sort(b[..n], leq), b[n], leq);
    }
  }

  /** No element may be moved before an earlier one. */
  ghost predicate Strict<T>(s: seq<T>, leq: (T, T) -> bool) {
    forall i, j :: 0 <= i < j < |s| ==> !leq(s[j], s[i])
  }

  lemma LastIsLast<T(!new)>(a: seq<T>, b: seq<T>, leq: (T, T) -> bool)
    requires Preorder(leq) && Strict(a, leq) && Ordered(b, leq) && multiset(a) == multiset(b) && a != []
    ensures |b| == |a| && a[|a| - 1] == b[|b| - 1]
  {
    var la, lb := a[|a| - 1], b[|b| - 1];
    assert |multiset(a)| == |a| && |multiset(b)| == |b|;
    assert la in multiset(b) && lb in multiset(a);
    var i :| 0 <= i < |b| && b[i] == la;
    var j :| 0 <= j < |a| && a[j] == lb;
    if j < |a| - 1 { assert false; }
  }

  lemma DropLast<T>(a: seq<T>)
    requires a != []
    ensures multiset(a[..|a| - 1]) == multiset(a) - multiset{a[|a| - 1]}
  {
    assert a == a[..|a| - 1] + [a[|a| - 1]];
  }

  lemma PrefixOrders<T>(a: seq<T>, b: seq<T>, leq: (T, T) -> bool)
    requires Strict(a, leq) && Ordered(b, leq) && a != [] && |b| == |a|
    ensures Strict(a[..|a| - 1], leq) && Ordered(b[..|a| - 1], leq)
  {
  }

  /** Without ties there is one order, whatever sort is used. */
  lemma {:induction false} OrderIsUnique<T(!new)>(a: seq<T>, b: seq<T>, leq: (T, T) -> bool)
    requires Preorder(leq) && Strict(a, leq) && Ordered(b, leq) && multiset(a) == multiset(b)
    ensures a == b
    decreases |a|
  {
    hide *;
    if a == [] {
      assert |b| == |multiset(b)|;
    } else {
      LastIsLast(a, b, leq);
      PrefixOrders(a, b, leq);
      DropLast(a);
      DropLast(b);
      var n := |a| - 1;
      OrderIsUnique(a[..n], b[..n], leq);
      assert b == b[..n] + [b[n]] && a == a[..n] + [a[n]];
    }
  }
}
