/** Stable sorting by a total preorder: what `sort_by_key` delivers. */
module Sorting {

  ghost predicate TotalPreorder<T(!new)>(le: (T, T) -> bool) {
    && (forall x, y :: le(x, y) || le(y, x))
    && (forall x, y, z :: le(x, y) && le(y, z) ==> le(x, z))
  }

  ghost predicate Sorted<T>(le: (T, T) -> bool, s: seq<T>) {
    forall i, j :: 0 <= i < j < |s| ==> le(s[i], s[j])
  }

  /** The elements of s that compare equal to k, in their order. */
  function Ties<T>(le: (T, T) -> bool, s: seq<T>, k: T): seq<T> {
    if s == [] then []
    else
      var x := s[|s| - 1];
      Ties(le, s[..|s| - 1], k) + if le(x, k) && le(k, x) then [x] else []
  }

  /** Put x after every element that is not greater. */
  function Insert<T>(le: (T, T) -> bool, t: seq<T>, x: T): seq<T> {
    if t == [] then [x]
    else
      var last := t[|t| - 1];
      if le(last, x) then t + [x] else Insert(le, t[..|t| - 1], x) + [last]
  }

  function Sort<T>(le: (T, T) -> bool, s: seq<T>): seq<T> {
    if s == [] then [] else Insert(le, Sort(le, s[..|s| - 1]), s[|s| - 1])
  }

  lemma {:induction false} TiesSnoc<T>(le: (T, T) -> bool, s: seq<T>, x: T, k: T)
    ensures Ties(le, s + [x], k) == Ties(le, s, k) + if le(x, k) && le(k, x) then [x] else []
  {
    assert (s + [x])[..|s|] == s;
  }

  lemma {:induction false} InsertPermutes<T>(le: (T, T) -> bool, t: seq<T>, x: T)
    ensures multiset(Insert(le, t, x)) == multiset(t) + multiset{x}
  {
    if t != [] {
      InsertPermutes(le, t[..|t| - 1], x);
      assert t == t[..|t| - 1] + [t[|t| - 1]];
    }
  }

  lemma {:induction false} InsertBounded<T>(le: (T, T) -> bool, t: seq<T>, x: T, y: T)
    requires (forall i :: 0 <= i < |t| ==> le(t[i], y)) && le(x, y)
    ensures forall i :: 0 <= i < |Insert(le, t, x)| ==> le(Insert(le, t, x)[i], y)
  {
    if t != [] { InsertBounded(le, t[..|t| - 1], x, y); }
  }

  lemma {:induction false} InsertSorts<T(!new)>(le: (T, T) -> bool, t: seq<T>, x: T)
    requires TotalPreorder(le) && Sorted(le, t)
    ensures Sorted(le, Insert(le, t, x))
  {
    if t != [] {
      var last := t[|t| - 1];
      if le(last, x) {
        assert forall i :: 0 <= i < |t| ==> le(t[i], x);
      } else {
        InsertSorts(le, t[..|t| - 1], x);
        InsertBounded(le, t[..|t| - 1], x, last);
      }
    }
  }

  /** Insertion keeps the order of equal elements and puts x last among its own. */
  lemma {:induction false} InsertStable<T(!new)>(le: (T, T) -> bool, t: seq<T>, x: T, k: T)
    requires TotalPreorder(le)
    ensures Ties(le, Insert(le, t, x), k) == Ties(le, t, k) + if le(x, k) && le(k, x) then [x] else []
  {
    if t == [] {
      TiesSnoc(le, [], x, k);
      assert [] + [x] == [x];
    } else {
      var init, last := t[..|t| - 1], t[|t| - 1];
      if le(last, x) {
        TiesSnoc(le, t, x, k);
      } else {
        InsertStable(le, init, x, k);
        TiesSnoc(le, Insert(le, init, x), last, k);
        assert !(le(x, k) && le(k, x) && le(last, k) && le(k, last));
      }
    }
  }

  /** Sorted, the same elements, and elements that compare equal keep their order. */
  lemma {:induction false} SortCorrect<T(!new)>(le: (T, T) -> bool, s: seq<T>, k: T)
    requires TotalPreorder(le)
    ensures Sorted(le, Sort(le, s))
    ensures multiset(Sort(le, s)) == multiset(s)
    ensures Ties(le, Sort(le, s), k) == Ties(le, s, k)
    decreases |s|
  {
    if s != [] {
      var init, last := s[..|s| - 1], s[|s| - 1];
      SortCorrect(le, init, k);
      InsertSorts(le, Sort(le, init), last);
      InsertPermutes(le, Sort(le, init), last);
      InsertStable(le, Sort(le, init), last, k);
      assert s == init + [last];
    }
  }

  /** A sorted list is already its own sort. */
  lemma {:induction false} SortIdempotent<T(!new)>(le: (T, T) -> bool, s: seq<T>)
    requires TotalPreorder(le) && Sorted(le, s)
    ensures Sort(le, s) == s
    decreases |s|
  {
    if s != [] {
      var init, last := s[..|s| - 1], s[|s| - 1];
      SortIdempotent(le, init);
      assert s == init + [last];
      assert forall i :: 0 <= i < |init| ==> le(init[i], last);
    }
  }
}
