/** The heavy-hitter cache as it is written: four parallel lists that are pushed, scored, evicted from and truncated. */
module H2oCache {
  import opened Arith
  import opened H2oModel
  import opened StableSort

  type Vec = seq<real>

  datatype EvictionPolicy = CumulativeScore | DecayedScore(decay: real)

  /** The plain cache of one layer: a list of keys and a list of values. */
  class LayerKvCache {
    var keys: seq<Vec>
    var values: seq<Vec>
    const headDim: nat

    constructor (headDim: nat)
      ensures keys == [] && values == [] && this.headDim == headDim
    {
      this.headDim := headDim;
      keys, values := [], [];
    }

    method Append(key: Vec, value: Vec)
      modifies this
      ensures keys == old(keys) + [key] && values == old(values) + [value]
    {
      keys := keys + [key];
      values := values + [value];
    }

    function KeyAt(pos: nat, kvHead: nat): Vec
      requires pos < |keys| && (kvHead + 1) * headDim <= |keys[pos]|
      reads this
    {
      keys[pos][kvHead * headDim .. kvHead * headDim + headDim]
    }

    function ValueAt(pos: nat, kvHead: nat): Vec
      requires pos < |values| && (kvHead + 1) * headDim <= |values[pos]|
      reads this
    {
      values[pos][kvHead * headDim .. kvHead * headDim + headDim]
    }

    method Rollback(newLen: nat)
      modifies this
      ensures keys == old(keys)[..Min(newLen, |old(keys)|)]
      ensures values == old(values)[..Min(newLen, |old(values)|)]
    {
      if newLen < |keys| { keys := keys[..newLen]; }
      if newLen < |values| { values := values[..newLen]; }
    }
  }

  /** The first `n` heads of a cached key and of a cached value, as they are read, joined. */
  function HeadKeys(kv: LayerKvCache, pos: nat, n: nat): Vec
    requires pos < |kv.keys| && n * kv.headDim <= |kv.keys[pos]|
    reads kv
  {
    if n == 0 then []
    else
      MulStep(n - 1, n, kv.headDim);
      HeadKeys(kv, pos, n - 1) + kv.KeyAt(pos, n - 1)
  }

  function HeadValues(kv: LayerKvCache, pos: nat, n: nat): Vec
    requires pos < |kv.values| && n * kv.headDim <= |kv.values[pos]|
    reads kv
  {
    if n == 0 then []
    else
      MulStep(n - 1, n, kv.headDim);
      HeadValues(kv, pos, n - 1) + kv.ValueAt(pos, n - 1)
  }

  /** The reads of all heads, joined in order, are the key and the value. */
  lemma {:induction false} HeadsJoin(kv: LayerKvCache, pos: nat, n: nat)
    requires pos < |kv.keys| && pos < |kv.values|
    requires |kv.keys[pos]| == |kv.values[pos]| && 0 <= n * kv.headDim <= |kv.keys[pos]|
    ensures HeadKeys(kv, pos, n) == kv.keys[pos][..n * kv.headDim]
    ensures HeadValues(kv, pos, n) == kv.values[pos][..n * kv.headDim]
  {
    if n > 0 {
      MulStep(n - 1, n, kv.headDim);
      assert n * kv.headDim == (n - 1) * kv.headDim + kv.headDim;
      HeadsJoin(kv, pos, n - 1);
    }
  }

  /** Scores after one step: decayed first if the policy says so, then the new weights added. */
  function Recorded(scores: seq<real>, weights: seq<real>, policy: EvictionPolicy): (r: seq<real>)
    ensures |r| == |scores|
  {
    seq(|scores|, i requires 0 <= i < |scores| =>
      (if policy.DecayedScore? then scores[i] * policy.decay else scores[i])
      + WeightAt(weights, i))
  }

  function RealPower(x: real, n: nat): real { if n == 0 then 1.0 else x * RealPower(x, n - 1) }

  function WeightAt(weights: seq<real>, i: nat): real { if i < |weights| then weights[i] else 0.0 }

  /** The scores after several steps, oldest first. */
  function RecordedAll(scores: seq<real>, steps: seq<seq<real>>, policy: EvictionPolicy): (r: seq<real>)
    ensures |r| == |scores|
  {
    if steps == [] then scores
    else Recorded(RecordedAll(scores, steps[..|steps| - 1], policy), steps[|steps| - 1], policy)
  }

  /** The weights that an entry received in the first `n` steps, each discounted once for every step after it. */
  function Discounted(steps: seq<seq<real>>, i: nat, decay: real, n: nat): real
    requires n <= |steps|
  {
    if n == 0 then 0.0
    else
      var w := if i < |steps[n - 1]| then steps[n - 1][i] else 0.0;
      Discounted(steps, i, decay, n - 1) + RealPower(decay, |steps| - n) * w
  }

  /** One step more discounts every weight before it once more. */
  lemma {:induction false} DiscountedOnceMore(steps: seq<seq<real>>, i: nat, decay: real, n: nat)
    requires n < |steps|
    ensures Discounted(steps, i, decay, n) == decay * Discounted(steps[..|steps| - 1], i, decay, n)
  {
    hide RealPower;
    if n > 0 {
      DiscountedOnceMore(steps, i, decay, n - 1);
      NextPower(decay, |steps| - n - 1);
      TakeOut(decay, Discounted(steps[..|steps| - 1], i, decay, n - 1), RealPower(decay, |steps| - n - 1),
              WeightAt(steps[n - 1], i), RealPower(decay, |steps| - n));
    }
  }

  lemma NextPower(x: real, n: nat)
    ensures RealPower(x, n + 1) == x * RealPower(x, n) && RealPower(x, 0) == 1.0
  {
  }

  lemma TakeOut(c: real, a: real, p: real, w: real, p': real)
    requires p' == c * p
    ensures c * a + p' * w == c * (a + p * w)
  {
  }

  /** After any number of steps a score is the sum of the weights received, the one of `k` steps ago counting
      `decay` to the power `k`; without decay it is their plain sum. */
  lemma {:induction false} ScoresAreSums(scores: seq<real>, steps: seq<seq<real>>, policy: EvictionPolicy, i: nat)
    requires i < |scores|
    ensures var decay := if policy.DecayedScore? then policy.decay else 1.0;
      RecordedAll(scores, steps, policy)[i]
      == RealPower(decay, |steps|) * scores[i] + Discounted(steps, i, decay, |steps|)
  {
    hide RealPower, Discounted;
    var decay, m := if policy.DecayedScore? then policy.decay else 1.0, |steps|;
    FirstAndLast(steps, i, decay);
    if m > 0 {
      ScoresAreSums(scores, steps[..m - 1], policy, i);
      DiscountedOnceMore(steps, i, decay, m - 1);
      NextPower(decay, m - 1);
      TakeOut(decay, Discounted(steps[..m - 1], i, decay, m - 1), RealPower(decay, m - 1), scores[i],
              RealPower(decay, m));
    } else {
      NextPower(decay, 0);
    }
  }

  lemma FirstAndLast(steps: seq<seq<real>>, i: nat, decay: real)
    ensures Discounted(steps, i, decay, 0) == 0.0
    ensures steps != [] ==>
      Discounted(steps, i, decay, |steps|)
      == Discounted(steps, i, decay, |steps| - 1) + WeightAt(steps[|steps| - 1], i)
  {
  }

  class H2oLayerCache {
    const kv: LayerKvCache
    var scores: seq<real>
    const budget: nat
    const sinkTokens: nat
    const policy: EvictionPolicy
    var originalPositions: seq<nat>
    var evictionCount: nat

    /** The lists run in parallel and the positions of the sequence only go up. */
    ghost predicate Valid()
      reads this, kv
    {
      && |kv.keys| == |kv.values| == |scores| == |originalPositions|
      && budget > sinkTokens
      && Increasing(originalPositions)
    }

    constructor (headDim: nat, budget: nat, sinkTokens: nat, policy: EvictionPolicy)
      requires budget > sinkTokens
      ensures Valid() && scores == [] && fresh(kv) && evictionCount == 0
      ensures this.budget == budget && this.sinkTokens == sinkTokens && this.policy == policy
    {
      kv := new LayerKvCache(headDim);
      this.budget, this.sinkTokens, this.policy := budget, sinkTokens, policy;
      scores, originalPositions, evictionCount := [], [], 0;
    }

    method Append(key: Vec, value: Vec)
      requires Valid()
      modifies this, kv
      ensures Valid() && evictionCount == old(evictionCount)
      ensures kv.keys == old(kv.keys) + [key] && kv.values == old(kv.values) + [value] && scores == old(scores) + [0.0]
      ensures |originalPositions| == |old(originalPositions)| + 1
      ensures originalPositions[..|old(originalPositions)|] == old(originalPositions)
      ensures old(originalPositions) == [] ==> originalPositions == [0]
      ensures forall n: nat | n + 2 == |originalPositions| :: originalPositions[n + 1] == originalPositions[n] + 1
    {
      var pos := if originalPositions == [] then 0 else originalPositions[|originalPositions| - 1] + 1;
      originalPositions := originalPositions + [pos];
      kv.Append(key, value);
      scores := scores + [0.0];
    }

    method RecordAttention(attentionWeights: seq<real>)
      requires Valid()
      modifies `scores
      ensures Valid() && scores == Recorded(old(scores), attentionWeights, policy)
    {
      var len := |scores|;
      var n := if |attentionWeights| < len then |attentionWeights| else len;
      if policy.DecayedScore? {
        for i := 0 to |scores|
          invariant |scores| == len
          invariant forall k | 0 <= k < len ::
            scores[k] == if k < i then old(scores)[k] * policy.decay else old(scores)[k]
        {
          scores := scores[i := scores[i] * policy.decay];
        }
      }
      ghost var decayed := scores;
      assert forall k | 0 <= k < len ::
        decayed[k] == if policy.DecayedScore? then old(scores)[k] * policy.decay else old(scores)[k];
      for i := 0 to n
        invariant |scores| == len
        invariant forall k | 0 <= k < len :: scores[k] == if k < i then decayed[k] + attentionWeights[k] else decayed[k]
      {
        scores := scores[i := scores[i] + attentionWeights[i]];
      }
      forall k | 0 <= k < len ensures scores[k] == Recorded(old(scores), attentionWeights, policy)[k] {
      }
    }

    /** Bring the cache within its budget. What goes is the same for all four lists. */
    method EvictIfNeeded() returns (evicted: nat)
      requires Valid()
      modifies this, kv
      ensures Valid() && |scores| == Min(|old(scores)|, budget) && evicted == |old(scores)| - |scores|
      ensures |old(scores)| <= budget ==>
        kv.keys == old(kv.keys) && kv.values == old(kv.values) && scores == old(scores)
        && originalPositions == old(originalPositions)
      ensures |old(scores)| > budget ==>
        var gone := EvictSet(old(scores), sinkTokens, |old(scores)| - budget);
        && kv.keys == Keep(old(kv.keys), gone) && kv.values == Keep(old(kv.values), gone)
        && scores == Keep(old(scores), gone) && originalPositions == Keep(old(originalPositions), gone)
        && kv.keys[..sinkTokens] == old(kv.keys)[..sinkTokens]
        && kv.values[..sinkTokens] == old(kv.values)[..sinkTokens]
      ensures evictionCount == old(evictionCount) + evicted
    {
      hide Keep, EvictSet;
      if |kv.keys| <= budget { return 0; }
      var toEvict := |kv.keys| - budget;
      ghost var keys, values, gone := kv.keys, kv.values, EvictSet(scores, sinkTokens, toEvict);
      EvictSetMeaning(scores, sinkTokens, toEvict);
      evicted := EvictN(toEvict);
      KeepPrefix(keys, gone, sinkTokens);
      KeepPrefix(values, gone, sinkTokens);
    }

    method EvictN(n: nat) returns (evicted: nat)
      requires Valid()
      modifies this, kv
      ensures Valid()
      ensures n == 0 || |old(scores)| <= sinkTokens ==>
        evicted == 0 && kv.keys == old(kv.keys) && kv.values == old(kv.values) && scores == old(scores)
        && originalPositions == old(originalPositions)
      ensures n > 0 && |old(scores)| > sinkTokens ==>
        var gone := EvictSet(old(scores), sinkTokens, n);
        && evicted == Min(n, |old(scores)| - sinkTokens)
        && kv.keys == Keep(old(kv.keys), gone) && kv.values == Keep(old(kv.values), gone)
        && scores == Keep(old(scores), gone) && originalPositions == Keep(old(originalPositions), gone)
        && |scores| + evicted == |old(scores)|
      ensures evictionCount == old(evictionCount) + evicted
    {
      hide Sorted, EvictSet, Keep;
      if n == 0 || |kv.keys| <= sinkTokens { return 0; }
      SortedElements(Evictable(scores, sinkTokens), Lower);
      var evictable := Sorted(Evictable(scores, sinkTokens), Lower);
      var actual := if n < |evictable| then n else |evictable|;
      ghost var gone, before, positions := EvictSet(scores, sinkTokens, n), scores, originalPositions;
      var toRemove := Sorted(Indices(evictable[..actual]), Descending);
      RemovalOrder(scores, sinkTokens, n, toRemove);
      RemoveAll(toRemove);
      EvictSetMeaning(before, sinkTokens, n);
      KeepLength(old(kv.keys), gone);
      KeepLength(old(kv.values), gone);
      KeepLength(before, gone);
      KeepLength(positions, gone);
      KeepOrdered(positions, gone);
      evictionCount := evictionCount + actual;
      evicted := actual;
    }

    /** Remove indices from all lists, the largest first so that the others stay valid. */
    method RemoveAll(toRemove: seq<nat>)
      requires |kv.keys| == |kv.values| == |scores| == |originalPositions|
      requires forall i | 0 <= i < |toRemove| :: toRemove[i] < |scores|
      requires forall i, j | 0 <= i < j < |toRemove| :: toRemove[i] > toRemove[j]
      modifies `scores, `originalPositions, kv
      ensures kv.keys == Keep(old(kv.keys), ToSet(toRemove)) && kv.values == Keep(old(kv.values), ToSet(toRemove))
      ensures scores == Keep(old(scores), ToSet(toRemove))
      ensures originalPositions == Keep(old(originalPositions), ToSet(toRemove))
    {
      hide Keep;
      NothingGone(kv.keys, {});
      NothingGone(kv.values, {});
      NothingGone(scores, {});
      NothingGone(originalPositions, {});
      for j := 0 to |toRemove|
        invariant kv.keys == Keep(old(kv.keys), ToSet(toRemove[..j]))
        invariant kv.values == Keep(old(kv.values), ToSet(toRemove[..j]))
        invariant scores == Keep(old(scores), ToSet(toRemove[..j]))
        invariant originalPositions == Keep(old(originalPositions), ToSet(toRemove[..j]))
      {
        var idx := toRemove[j];
        ghost var gone := ToSet(toRemove[..j]);
        NextToRemove(toRemove, j);
        RemoveFrom(old(kv.keys), gone, idx);
        RemoveFrom(old(kv.values), gone, idx);
        RemoveFrom(old(scores), gone, idx);
        RemoveFrom(old(originalPositions), gone, idx);
        kv.keys := kv.keys[..idx] + kv.keys[idx + 1..];
        kv.values := kv.values[..idx] + kv.values[idx + 1..];
        scores := scores[..idx] + scores[idx + 1..];
        originalPositions := originalPositions[..idx] + originalPositions[idx + 1..];
      }
      assert toRemove[..|toRemove|] == toRemove;
    }

    method Rollback(newLen: nat)
      requires Valid()
      modifies this, kv
      ensures Valid() && evictionCount == old(evictionCount)
      ensures kv.keys == old(kv.keys)[..Min(newLen, |old(kv.keys)|)]
      ensures kv.values == old(kv.values)[..Min(newLen, |old(kv.values)|)]
      ensures scores == old(scores)[..Min(newLen, |old(scores)|)]
      ensures originalPositions == old(originalPositions)[..Min(newLen, |old(originalPositions)|)]
    {
      kv.Rollback(newLen);
      if newLen < |scores| { scores := scores[..newLen]; }
      if newLen < |originalPositions| { originalPositions := originalPositions[..newLen]; }
    }
  }

  lemma NextToRemove(toRemove: seq<nat>, j: nat)
    requires j < |toRemove| && forall i, k | 0 <= i < k < |toRemove| :: toRemove[i] > toRemove[k]
    ensures forall k | k in ToSet(toRemove[..j]) :: toRemove[j] < k
    ensures ToSet(toRemove[..j + 1]) == ToSet(toRemove[..j]) + {toRemove[j]}
  {
    assert toRemove[..j + 1][..j] == toRemove[..j];
  }

  predicate NotSame(a: nat, b: nat) { a != b }

  lemma SortedSet(picked: seq<nat>)
    ensures ToSet(Sorted(picked, Descending)) == ToSet(picked)
  {
    hide Sorted, ToSet;
    forall x ensures x in Sorted(picked, Descending) <==> x in picked { InSorted(picked, Descending, x); }
  }

  lemma SortedStrictly(picked: seq<nat>)
    requires forall i, j | 0 <= i < j < |picked| :: picked[i] != picked[j]
    ensures var r := Sorted(picked, Descending); forall i, j | 0 <= i < j < |r| :: r[i] > r[j]
  {
    hide Sorted;
    SortedArranged(picked, Descending, NotSame);
  }

  /** The indices to remove come in strictly descending order and are those of the eviction set. */
  lemma RemovalOrder(scores: seq<real>, sinks: nat, n: nat, toRemove: seq<nat>)
    requires sinks <= |scores| && toRemove == Sorted(Indices(Victims(scores, sinks, n)), Descending)
    ensures ToSet(toRemove) == EvictSet(scores, sinks, n)
    ensures forall i | 0 <= i < |toRemove| :: toRemove[i] < |scores|
    ensures forall i, j | 0 <= i < j < |toRemove| :: toRemove[i] > toRemove[j]
  {
    hide Sorted, Victims, ToSet, Indices;
    var picked := Indices(Victims(scores, sinks, n));
    EvictSetMeaning(scores, sinks, n);
    VictimsDistinct(scores, sinks, n);
    SortedStrictly(picked);
    SortedSet(picked);
    forall i | 0 <= i < |toRemove| ensures toRemove[i] < |scores| { assert toRemove[i] in EvictSet(scores, sinks, n); }
  }

  lemma VictimsDistinct(scores: seq<real>, sinks: nat, n: nat)
    requires sinks <= |scores|
    ensures forall i, j | 0 <= i < j < |Victims(scores, sinks, n)| ::
      Indices(Victims(scores, sinks, n))[i] != Indices(Victims(scores, sinks, n))[j]
  {
    hide Sorted;
    var r := Sorted(Evictable(scores, sinks), Lower);
    SortedRanking(scores, sinks);
    forall i, j | 0 <= i < j < |Victims(scores, sinks, n)|
      ensures Indices(Victims(scores, sinks, n))[i] != Indices(Victims(scores, sinks, n))[j]
    {
      assert r[i].score == scores[r[i].index] && r[j].score == scores[r[j].index];
    }
  }
}
