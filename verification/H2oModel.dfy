/** Score-based eviction: which entries go, and what the four parallel lists keep. */
module H2oModel {
  import opened Arith
  import opened StableSort

  predicate Descending(a: nat, b: nat) { a > b }

  /** The entries behind the sinks. */
  function Evictable(scores: seq<real>, sinks: nat): (r: seq<Scored>)
    requires sinks <= |scores|
    ensures |r| == |scores| - sinks
  {
    seq(|scores| - sinks, i requires 0 <= i < |scores| - sinks => Scored(sinks + i, scores[sinks + i]))
  }

  /** The lowest-scoring `n` entries behind the sinks. */
  function Victims(scores: seq<real>, sinks: nat, n: nat): (r: seq<Scored>)
    requires sinks <= |scores|
  {
    var sorted := Sorted(Evictable(scores, sinks), Lower);
    sorted[..Min(n, |sorted|)]
  }

  function Indices(s: seq<Scored>): (r: seq<nat>)
    ensures |r| == |s|
  {
    seq(|s|, i requires 0 <= i < |s| => s[i].index)
  }

  function ToSet(s: seq<nat>): (r: set<nat>)
    ensures forall x :: x in r <==> x in s
  {
    if s == [] then {} else ToSet(s[..|s| - 1]) + {s[|s| - 1]}
  }

  function EvictSet(scores: seq<real>, sinks: nat, n: nat): set<nat>
    requires sinks <= |scores|
  {
    ToSet(Indices(Victims(scores, sinks, n)))
  }

  /** The elements whose index is not in a set, in order. */
  function Keep<T>(s: seq<T>, gone: set<nat>): seq<T> {
    if s == [] then []
    else
      var n := |s| - 1;
      Keep(s[..n], gone) + if n in gone then [] else [s[n]]
  }

  // ---------- what is evicted ----------

  /** The entries behind the sinks, each once, from low to high score and within a score from old to new. */
  ghost predicate Ranking(r: seq<Scored>, scores: seq<real>, sinks: nat)
    requires sinks <= |scores|
  {
    && |r| == |scores| - sinks
    && Arranged(r, Lower, Earlier)
    && (forall k | 0 <= k < |r| :: sinks <= r[k].index < |scores| && r[k].score == scores[r[k].index])
    && (forall j | sinks <= j < |scores| :: Scored(j, scores[j]) in r)
  }

  lemma SortedRanking(scores: seq<real>, sinks: nat)
    requires sinks <= |scores|
    ensures Ranking(Sorted(Evictable(scores, sinks), Lower), scores, sinks)
  {
    hide Sorted;
    var e := Evictable(scores, sinks);
    SortedArranged(e, Lower, Earlier);
    SortedElements(e, Lower);
    var r := Sorted(e, Lower);
    forall k | 0 <= k < |r| ensures sinks <= r[k].index < |scores| && r[k].score == scores[r[k].index] {
      InSorted(e, Lower, r[k]);
      var i :| 0 <= i < |e| && e[i] == r[k];
    }
    forall j | sinks <= j < |scores| ensures Scored(j, scores[j]) in r {
      assert e[j - sinks] == Scored(j, scores[j]);
      InSorted(e, Lower, e[j - sinks]);
    }
  }

  lemma {:induction false} DistinctSize(s: seq<nat>)
    requires forall i, j | 0 <= i < j < |s| :: s[i] != s[j]
    ensures |ToSet(s)| == |s|
  {
    if s != [] { DistinctSize(s[..|s| - 1]); }
  }

  lemma PickedSet(r: seq<Scored>, scores: seq<real>, sinks: nat, m: nat)
    requires sinks <= |scores| && Ranking(r, scores, sinks) && m <= |r|
    ensures |ToSet(Indices(r[..m]))| == m
    ensures forall k | 0 <= k < m :: r[k].index in ToSet(Indices(r[..m]))
    ensures forall i | i in ToSet(Indices(r[..m])) :: sinks <= i < |scores| && exists k :: 0 <= k < m && r[k].index == i
  {
    hide ToSet;
    var picked := Indices(r[..m]);
    assert forall k | 0 <= k < m :: picked[k] == r[k].index;
    DistinctSize(picked);
  }

  lemma PickedBelow(r: seq<Scored>, scores: seq<real>, sinks: nat, m: nat, a: nat, j: nat)
    requires sinks <= |scores| && Ranking(r, scores, sinks) && a < m <= |r| && sinks <= j < |scores|
    requires forall k | 0 <= k < m :: r[k].index != j
    ensures scores[r[a].index] < scores[j] || (scores[r[a].index] == scores[j] && r[a].index < j)
  {
    assert Scored(j, scores[j]) in r;
    var b :| 0 <= b < |r| && r[b] == Scored(j, scores[j]);
    assert b >= m;
  }

  lemma FirstOfRanking(r: seq<Scored>, scores: seq<real>, sinks: nat, m: nat)
    requires sinks <= |scores| && Ranking(r, scores, sinks) && m <= |r|
    ensures var gone := ToSet(Indices(r[..m]));
      && |gone| == m
      && (forall i | i in gone :: sinks <= i < |scores|)
      && (forall i, j | i in gone && sinks <= j < |scores| && j !in gone ::
            scores[i] < scores[j] || (scores[i] == scores[j] && i < j))
  {
    hide ToSet, Ranking;
    var gone := ToSet(Indices(r[..m]));
    PickedSet(r, scores, sinks, m);
    forall i, j | i in gone && sinks <= j < |scores| && j !in gone
      ensures scores[i] < scores[j] || (scores[i] == scores[j] && i < j)
    {
      var a :| 0 <= a < m && r[a].index == i;
      PickedBelow(r, scores, sinks, m, a, j);
    }
  }

  /** Only entries behind the sinks go, as many as asked for or as there are, and each of them has a lower
      score than every one that stays, or the same score and an earlier place. */
  lemma EvictSetMeaning(scores: seq<real>, sinks: nat, n: nat)
    requires sinks <= |scores|
    ensures var gone := EvictSet(scores, sinks, n);
      && |gone| == Min(n, |scores| - sinks)
      && (forall i | i in gone :: sinks <= i < |scores|)
      && (forall i, j | i in gone && sinks <= j < |scores| && j !in gone ::
            scores[i] < scores[j] || (scores[i] == scores[j] && i < j))
  {
    hide Sorted, Evictable, Ranking;
    var r := Sorted(Evictable(scores, sinks), Lower);
    SortedRanking(scores, sinks);
    RankingLength(r, scores, sinks);
    FirstOfRanking(r, scores, sinks, Min(n, |r|));
  }

  lemma RankingLength(r: seq<Scored>, scores: seq<real>, sinks: nat)
    requires sinks <= |scores| && Ranking(r, scores, sinks)
    ensures |r| == |scores| - sinks
  {
  }

  // ---------- what is kept ----------

  lemma {:induction false} KeepLength<T>(s: seq<T>, gone: set<nat>)
    requires forall i | i in gone :: i < |s|
    ensures |Keep(s, gone)| + |gone| == |s|
  {
    if s == [] {
      assert gone == {};
    } else {
      var n := |s| - 1;
      KeepBelow(s[..n], gone);
      KeepLength(s[..n], gone - {n});
    }
  }

  /** Indices past the end make no difference. */
  lemma {:induction false} KeepBelow<T>(s: seq<T>, gone: set<nat>)
    ensures Keep(s, gone) == Keep(s, gone - {|s|})
  {
    KeepSame(s, gone, gone - {|s|});
  }

  lemma {:induction false} KeepSame<T>(s: seq<T>, gone: set<nat>, gone': set<nat>)
    requires forall i | 0 <= i < |s| :: i in gone <==> i in gone'
    ensures Keep(s, gone) == Keep(s, gone')
  {
    if s != [] { KeepSame(s[..|s| - 1], gone, gone'); }
  }

  /** What lies before all evicted indices is untouched. */
  lemma {:induction false} KeepPrefix<T>(s: seq<T>, gone: set<nat>, k: nat)
    requires k <= |s| && forall i | i in gone :: k <= i
    ensures k <= |Keep(s, gone)| && Keep(s, gone)[..k] == s[..k]
  {
    if k < |s| {
      KeepPrefix(s[..|s| - 1], gone, k);
      assert s[..|s| - 1][..k] == s[..k];
    } else {
      NothingGone(s, gone);
    }
  }

  /** The indices that are kept, in increasing order. */
  function KeptIndices(n: nat, gone: set<nat>): seq<nat> {
    if n == 0 then [] else KeptIndices(n - 1, gone) + if n - 1 in gone then [] else [n - 1]
  }

  lemma {:induction false} KeptIncreasing(n: nat, gone: set<nat>)
    ensures forall i | 0 <= i < |KeptIndices(n, gone)| :: KeptIndices(n, gone)[i] < n
    ensures forall i, j | 0 <= i < j < |KeptIndices(n, gone)| :: KeptIndices(n, gone)[i] < KeptIndices(n, gone)[j]
    ensures forall i: nat :: i in KeptIndices(n, gone) <==> i < n && i !in gone
  {
    if n > 0 { KeptIncreasing(n - 1, gone); }
  }

  /** The kept elements are those at the kept indices. */
  lemma {:induction false} KeepSelects<T>(s: seq<T>, gone: set<nat>)
    ensures |Keep(s, gone)| == |KeptIndices(|s|, gone)|
    ensures forall i | 0 <= i < |Keep(s, gone)| ::
      KeptIndices(|s|, gone)[i] < |s| && Keep(s, gone)[i] == s[KeptIndices(|s|, gone)[i]]
  {
    if s != [] {
      KeepSelects(s[..|s| - 1], gone);
    }
  }

  ghost predicate Increasing(s: seq<nat>) { forall i, j | 0 <= i < j < |s| :: s[i] < s[j] }

  lemma KeepOrdered(s: seq<nat>, gone: set<nat>)
    requires Increasing(s)
    ensures Increasing(Keep(s, gone))
  {
    KeepSelects(s, gone);
    KeptIncreasing(|s|, gone);
  }

  /** Removing one index more, below all that are gone already. */
  lemma {:induction false} RemoveFrom<T>(s: seq<T>, gone: set<nat>, i: nat)
    requires i < |s| && forall k | k in gone :: i < k
    ensures i < |Keep(s, gone)|
    ensures Keep(s, gone)[..i] + Keep(s, gone)[i + 1..] == Keep(s, gone + {i})
  {
    var n := |s| - 1;
    if i < n {
      RemoveFrom(s[..n], gone, i);
      CutInside(Keep(s[..n], gone), if n in gone then [] else [s[n]], i);
    } else {
      NothingGone(s[..n], gone);
      NothingGone(s[..n], gone + {i});
    }
  }

  lemma CutInside<T>(a: seq<T>, tail: seq<T>, i: nat)
    requires i < |a|
    ensures (a + tail)[..i] + (a + tail)[i + 1..] == a[..i] + a[i + 1..] + tail
  {
  }

  lemma {:induction false} NothingGone<T>(s: seq<T>, gone: set<nat>)
    requires forall i | i in gone :: |s| <= i
    ensures Keep(s, gone) == s
  {
    if s != [] { NothingGone(s[..|s| - 1], gone); }
  }
}
