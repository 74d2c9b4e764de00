/** The standard library's stable sort, as an insertion sort over an order given by a function. */
module StableSort {

  /** A place in a list and its score. */
  datatype Scored = Scored(index: nat, score: real)

  predicate Lower(a: Scored, b: Scored) { a.score < b.score }

  predicate Higher(a: Scored, b: Scored) { a.score > b.score }

  predicate Earlier(a: Scored, b: Scored) { a.index < b.index }

  /** The element goes behind all elements that it does not come before. */
  function Insert<T>(s: seq<T>, x: T, before: (T, T) -> bool): seq<T> {
    if s == [] || !before(x, s[|s| - 1]) then s + [x]
    else Insert(s[..|s| - 1], x, before) + [s[|s| - 1]]
  }

  function Sorted<T>(s: seq<T>, before: (T, T) -> bool): seq<T> {
    if s == [] then [] else Insert(Sorted(s[..|s| - 1], before), s[|s| - 1], before)
  }

  /** `before` ranks elements; elements of the same rank come before each other in neither direction. */
  ghost predicate WeakOrder<T(!new)>(before: (T, T) -> bool) {
    && (forall a :: !before(a, a))
    && (forall a, b, c :: before(a, c) ==> before(a, b) || before(b, c))
  }

  /** In rank order, and within a rank in the order of `earlier`. */
  ghost predicate Arranged<T>(s: seq<T>, before: (T, T) -> bool, earlier: (T, T) -> bool) {
    forall i, j | 0 <= i < j < |s| :: before(s[i], s[j]) || (!before(s[j], s[i]) && earlier(s[i], s[j]))
  }

  lemma {:induction false} InsertElements<T>(s: seq<T>, x: T, before: (T, T) -> bool)
    ensures multiset(Insert(s, x, before)) == multiset(s) + multiset{x}
  {
    if s == [] || !before(x, s[|s| - 1]) {
    } else {
      InsertElements(s[..|s| - 1], x, before);
      assert s == s[..|s| - 1] + [s[|s| - 1]];
    }
  }

  /** Sorting keeps the elements. */
  lemma {:induction false} SortedElements<T>(s: seq<T>, before: (T, T) -> bool)
    ensures multiset(Sorted(s, before)) == multiset(s)
    ensures |Sorted(s, before)| == |s|
  {
    if s != [] {
      SortedElements(s[..|s| - 1], before);
      InsertElements(Sorted(s[..|s| - 1], before), s[|s| - 1], before);
      assert s == s[..|s| - 1] + [s[|s| - 1]];
    }
    assert |multiset(Sorted(s, before))| == |multiset(s)|;
  }

  lemma InSorted<T>(s: seq<T>, before: (T, T) -> bool, x: T)
    ensures x in Sorted(s, before) <==> x in s
  {
    SortedElements(s, before);
    assert x in multiset(s) <==> x in s;
    assert x in multiset(Sorted(s, before)) <==> x in Sorted(s, before);
  }

  lemma {:induction false} InsertArranged<T(!new)>(s: seq<T>, x: T, before: (T, T) -> bool, earlier: (T, T) -> bool)
    requires WeakOrder(before) && Arranged(s, before, earlier)
    requires forall y | y in s :: earlier(y, x)
    ensures Arranged(Insert(s, x, before), before, earlier)
  {
    if s == [] {
    } else {
      var n := |s| - 1;
      var last := s[n];
      if !before(x, last) {
        forall i | 0 <= i < n + 1 ensures before(s[i], x) || (!before(x, s[i]) && earlier(s[i], x)) {
          if i < n && before(x, s[i]) { assert before(x, last) || before(last, s[i]); }
        }
      } else {
        InsertArranged(s[..n], x, before, earlier);
        var r := Insert(s[..n], x, before);
        InsertElements(s[..n], x, before);
        forall i | 0 <= i < |r| ensures before(r[i], last) || (!before(last, r[i]) && earlier(r[i], last)) {
          assert r[i] in multiset(r);
          if r[i] != x {
            assert r[i] in s[..n];
            var k :| 0 <= k < n && s[k] == r[i];
          }
        }
      }
    }
  }

  /** Sorting ranks the elements and, within a rank, keeps the order they came in. */
  lemma {:induction false} SortedArranged<T(!new)>(s: seq<T>, before: (T, T) -> bool, earlier: (T, T) -> bool)
    requires WeakOrder(before) && forall i, j | 0 <= i < j < |s| :: earlier(s[i], s[j])
    ensures Arranged(Sorted(s, before), before, earlier)
  {
    if s != [] {
      var n := |s| - 1;
      SortedArranged(s[..n], before, earlier);
      forall y | y in Sorted(s[..n], before) ensures earlier(y, s[n]) {
        InSorted(s[..n], before, y);
        var i :| 0 <= i < n && s[i] == y;
      }
      InsertArranged(Sorted(s[..n], before), s[n], before, earlier);
    }
  }
}
