/** The stable sort of a copy, and what a total order makes of it. */
module Sorting {
  import opened Text

  function Insert<T>(le: (T, T) -> bool, x: T, s: seq<T>): (r: seq<T>)
    ensures multiset(r) == multiset(s) + multiset{x}
  {
    if s == [] || le(x, s[0]) then [x] + s
    else
      assert s == [s[0]] + s[1..];
      [s[0]] + Insert(le, x, s[1..])
  }

  /** `[...s].sort(compare)` where `le(a, b)` is `compare(a, b) <= 0`: equal elements keep their order. */
  function SortBy<T>(le: (T, T) -> bool, s: seq<T>): (r: seq<T>)
    ensures multiset(r) == multiset(s)
  {
    if s == [] then []
    else
      assert s == [s[0]] + s[1..];
      Insert(le, s[0], SortBy(le, s[1..]))
  }

  ghost predicate TotalPreorder<T(!new)>(le: (T, T) -> bool) {
    && (forall x, y :: le(x, y) || le(y, x))
    && (forall x, y, z :: le(x, y) && le(y, z) ==> le(x, z))
  }

  ghost predicate Sorted<T>(le: (T, T) -> bool, s: seq<T>) {
    forall i, j :: 0 <= i < j < |s| ==> le(s[i], s[j])
  }

  lemma SameElements<T>(r: seq<T>, s: seq<T>)
    requires multiset(r) == multiset(s)
    ensures |r| == |s|
    ensures forall x :: x in r <==> x in s
  {
    assert |r| == |multiset(r)| == |multiset(s)| == |s|;
    forall x ensures x in r <==> x in s {
      assert x in r <==> x in multiset(r);
      assert x in s <==> x in multiset(s);
    }
  }

  lemma {:induction false} InsertSorted<T(!new)>(le: (T, T) -> bool, x: T, s: seq<T>)
    requires TotalPreorder(le) && Sorted(le, s)
    ensures Sorted(le, Insert(le, x, s))
  {
    if s != [] && !le(x, s[0]) {
      InsertSorted(le, x, s[1..]);
      var rest := Insert(le, x, s[1..]);
      forall y | y in rest ensures le(s[0], y) {
        assert y in multiset(s[1..]) + multiset{x};
      }
    }
  }

  lemma {:induction false} SortBySorted<T(!new)>(le: (T, T) -> bool, s: seq<T>)
    requires TotalPreorder(le)
    ensures Sorted(le, SortBy(le, s))
  {
    if s != [] {
      SortBySorted(le, s[1..]);
      InsertSorted(le, s[0], SortBy(le, s[1..]));
    }
  }

  lemma TailMultiset<T>(a: seq<T>)
    requires a != []
    ensures multiset(a[1..]) == multiset(a) - multiset{a[0]}
  {
    assert a == [a[0]] + a[1..];
  }

  /** A sorted sequence is determined by its elements when the order separates them. */
  lemma {:induction false} SortedUnique<T(!new)>(le: (T, T) -> bool, a: seq<T>, b: seq<T>)
    requires Sorted(le, a) && Sorted(le, b) && multiset(a) == multiset(b)
    requires forall x, y :: x in a && y in a && le(x, y) && le(y, x) ==> x == y
    ensures a == b
  {
    SameElements(a, b);
    if a != [] {
      assert a[0] == b[0] by {
        assert a[0] in b && b[0] in a;
      }
      TailMultiset(a);
      TailMultiset(b);
      SameElements(a[1..], b[1..]);
      SortedUnique(le, a[1..], b[1..]);
    }
  }

  /** Sorting forgets the order of its input. */
  lemma SortByCanonical<T(!new)>(le: (T, T) -> bool, a: seq<T>, b: seq<T>)
    requires TotalPreorder(le) && multiset(a) == multiset(b)
    requires forall x, y :: x in a && y in a && le(x, y) && le(y, x) ==> x == y
    ensures SortBy(le, a) == SortBy(le, b)
  {
    SortBySorted(le, a);
    SortBySorted(le, b);
    SameElements(SortBy(le, a), a);
    SortedUnique(le, SortBy(le, a), SortBy(le, b));
  }

  const STRING_ORDER: (string, string) -> bool := (a: string, b: string) => AtMost(a, b)

  lemma StringOrderIsTotal()
    ensures TotalPreorder(STRING_ORDER)
  {
    forall a, b ensures STRING_ORDER(a, b) || STRING_ORDER(b, a) {
      StringOrder(a, b, b);
    }
    forall a, b, c | STRING_ORDER(a, b) && STRING_ORDER(b, c) ensures STRING_ORDER(a, c) {
      StringOrder(a, b, c);
    }
  }

  /** Sorting strings without repetitions makes them strictly ascending. */
  lemma SortedStrings(values: seq<string>)
    requires forall v :: multiset(values)[v] <= 1
    ensures forall v :: v in SortBy(STRING_ORDER, values) <==> v in values
    ensures forall i, j :: 0 <= i < j < |values| && |SortBy(STRING_ORDER, values)| == |values| ==>
              Less(SortBy(STRING_ORDER, values)[i], SortBy(STRING_ORDER, values)[j])
    ensures |SortBy(STRING_ORDER, values)| == |values|
  {
    var r := SortBy(STRING_ORDER, values);
    SameElements(r, values);
    StringOrderIsTotal();
    SortBySorted(STRING_ORDER, values);
    forall i, j | 0 <= i < j < |r| ensures Less(r[i], r[j]) {
      assert STRING_ORDER(r[i], r[j]);
      StringOrder(r[i], r[j], r[j]);
      RepeatsCount(r, i, j);
    }
  }

  lemma RepeatsCount<T>(r: seq<T>, i: nat, j: nat)
    requires i < j < |r|
    ensures r[i] == r[j] ==> multiset(r)[r[i]] >= 2
  {
    assert r == r[..j] + [r[j]] + r[j + 1..];
    assert r[i] in r[..j];
  }

  ghost predicate DistinctBy<T, K>(key: T -> K, s: seq<T>) {
    forall i, j :: 0 <= i < j < |s| ==> key(s[i]) != key(s[j])
  }

  lemma {:induction false} OccursOnce<T>(s: seq<T>, x: T)
    requires forall i, j :: 0 <= i < j < |s| ==> s[i] != s[j]
    ensures multiset(s)[x] <= 1
  {
    if s != [] {
      assert s == [s[0]] + s[1..];
      OccursOnce(s[1..], x);
      if x == s[0] {
        assert x !in s[1..];
      }
    }
  }

  /** Rearranging elements with different keys leaves the keys different. */
  lemma MovedKeysDiffer<T, K>(key: T -> K, s: seq<T>, moved: seq<T>)
    requires DistinctBy(key, s) && multiset(moved) == multiset(s)
    ensures DistinctBy(key, moved)
  {
    SameElements(moved, s);
    forall i, j | 0 <= i < j < |moved| ensures key(moved[i]) != key(moved[j]) {
      RepeatsCount(moved, i, j);
      OccursOnce(s, moved[i]);
      assert moved[i] in s && moved[j] in s;
    }
  }

  lemma Assoc<T>(a: seq<T>, b: seq<T>, c: seq<T>)
    ensures a + (b + c) == (a + b) + c
  {
  }

  /** Concatenates f over the pairs of the first element with each later one. */
  function WithLater<T, C>(f: (T, T) -> seq<C>, first: T, later: seq<T>): seq<C> {
    if later == [] then [] else f(first, later[0]) + WithLater(f, first, later[1..])
  }

  /** Concatenates f over all pairs of an element with a later one. */
  function OverPairs<T, C>(f: (T, T) -> seq<C>, s: seq<T>): seq<C> {
    if s == [] then [] else WithLater(f, s[0], s[1..]) + OverPairs(f, s[1..])
  }

  lemma {:induction false} WithLaterElements<T, C>(f: (T, T) -> seq<C>, first: T, later: seq<T>, c: C)
    ensures c in WithLater(f, first, later) <==> exists j :: 0 <= j < |later| && c in f(first, later[j])
  {
    if later != [] {
      WithLaterElements(f, first, later[1..], c);
      assert forall j :: 0 < j < |later| ==> later[j] == later[1..][j - 1];
    }
  }

  lemma {:induction false} OverPairsElements<T, C>(f: (T, T) -> seq<C>, s: seq<T>, c: C)
    ensures c in OverPairs(f, s) <==> exists i, j :: 0 <= i < j < |s| && c in f(s[i], s[j])
  {
    if s != [] {
      var rest := s[1..];
      WithLaterElements(f, s[0], rest, c);
      OverPairsElements(f, rest, c);
      if c in OverPairs(f, rest) {
        var i, j :| 0 <= i < j < |rest| && c in f(rest[i], rest[j]);
        assert c in f(s[i + 1], s[j + 1]);
      }
      if c in WithLater(f, s[0], rest) {
        var j :| 0 <= j < |rest| && c in f(s[0], rest[j]);
        assert c in f(s[0], s[j + 1]);
      }
      if i, j :| 0 <= i < j < |s| && c in f(s[i], s[j]) {
        if i > 0 {
          assert c in f(rest[i - 1], rest[j - 1]);
        } else {
          assert c in f(s[0], rest[j - 1]);
        }
      }
    }
  }
}
