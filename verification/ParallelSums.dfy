/** Sums as the GPU kernels split them: one strided partial sum per thread, then a tree of halving steps.
    Over the reals both together are the plain sum. */
module ParallelSums {
  import opened Arith

  ghost function SeqSum(p: seq<real>, n: nat): real
    requires n <= |p|
  {
    if n == 0 then 0.0 else SeqSum(p, n - 1) + p[n - 1]
  }

  /** The sum of `p[t]`, `p[t + b]`, `p[t + 2 * b]` and so on. */
  ghost function Strided(p: seq<real>, t: nat, b: nat): real
    requires b > 0
    decreases |p| - t
  {
    if t >= |p| then 0.0 else p[t] + Strided(p, t + b, b)
  }

  lemma {:induction false} StridedSnoc(p: seq<real>, x: real, t: nat, b: nat)
    requires b > 0
    ensures Strided(p + [x], t, b) == Strided(p, t, b) + if t <= |p| && (|p| - t) % b == 0 then x else 0.0
    decreases |p| - t
  {
    if t < |p| {
      StridedSnoc(p, x, t + b, b);
      var k := |p| - t;
      if k < b {
        assert k % b == k;
      } else {
        SubtractMod(k, b);
      }
    } else if t > |p| {
      assert Strided(p + [x], t, b) == 0.0;
    } else {
      assert Strided(p + [x], t, b) == x + Strided(p + [x], t + b, b);
    }
  }

  lemma SubtractMod(k: nat, b: nat)
    requires 0 < b <= k
    ensures k % b == (k - b) % b
  {
    var q, r := (k - b) / b, (k - b) % b;
    assert k == (q + 1) * b + r;
    ModUnique(k, b, q + 1, r);
  }

  /** The strided sums of threads `0 .. n`, added up. */
  ghost function StridedTotal(p: seq<real>, n: nat, b: nat): real
    requires b > 0
  {
    if n == 0 then 0.0 else StridedTotal(p, n - 1, b) + Strided(p, n - 1, b)
  }

  lemma {:induction false} StridedTotalSnoc(p: seq<real>, x: real, n: nat, b: nat)
    requires b > 0 && n <= b
    ensures StridedTotal(p + [x], n, b) == StridedTotal(p, n, b) + if |p| % b < n then x else 0.0
  {
    if n > 0 {
      StridedTotalSnoc(p, x, n - 1, b);
      StridedSnoc(p, x, n - 1, b);
      OwnerOfIndex(|p|, n - 1, b);
    }
  }

  /** Thread `t` meets index `k` exactly if `k` leaves remainder `t`. */
  lemma OwnerOfIndex(k: nat, t: nat, b: nat)
    requires t < b
    ensures t <= k && (k - t) % b == 0 <==> k % b == t
  {
    if t <= k && (k - t) % b == 0 {
      var q := (k - t) / b;
      assert k - t == q * b;
      ModUnique(k, b, q, t);
    }
    if k % b == t { RemainderReached(k, b); }
  }

  lemma RemainderReached(k: nat, b: nat)
    requires b > 0
    ensures k % b <= k && (k - k % b) % b == 0
  {
    var q := k / b;
    assert k == q * b + k % b;
    MulLe(0, q, b);
    ModUnique(k - k % b, b, q, 0);
  }

  /** All threads together add every element exactly once. */
  lemma {:induction false} StridedIsSum(p: seq<real>, b: nat)
    requires b > 0
    ensures StridedTotal(p, b, b) == SeqSum(p, |p|)
    decreases |p|
  {
    if p == [] {
      NoElements(b, b);
    } else {
      var q, x := p[..|p| - 1], p[|p| - 1];
      assert p == q + [x];
      StridedIsSum(q, b);
      StridedTotalSnoc(q, x, b, b);
      SumPrefix(p, q, |q|);
    }
  }

  lemma {:induction false} NoElements(n: nat, b: nat)
    requires b > 0
    ensures StridedTotal([], n, b) == 0.0
  {
    if n > 0 { NoElements(n - 1, b); }
  }

  lemma {:induction false} SumPrefix(p: seq<real>, q: seq<real>, n: nat)
    requires n <= |p| && n <= |q| && forall i | 0 <= i < n :: p[i] == q[i]
    ensures SeqSum(p, n) == SeqSum(q, n)
  {
    if n > 0 { SumPrefix(p, q, n - 1); }
  }

  /** If slot `t` holds the strided sum of thread `t`, the slots add up to the plain sum. */
  lemma {:induction false} SlotsAddUp(slots: seq<real>, p: seq<real>, n: nat, b: nat)
    requires b > 0 && n <= |slots| && forall t | 0 <= t < n :: slots[t] == Strided(p, t, b)
    ensures SeqSum(slots, n) == StridedTotal(p, n, b)
  {
    if n > 0 { SlotsAddUp(slots, p, n - 1, b); }
  }

  // ---------- halving ----------

  /** Adding the upper half of `2 * h` slots onto the lower half keeps the total. */
  lemma {:induction false} HalvingKeepsSum(s: seq<real>, s': seq<real>, h: nat, n: nat)
    requires n <= h && 2 * h <= |s| && h <= |s'| && forall t | 0 <= t < h :: s'[t] == s[t] + s[t + h]
    ensures SeqSum(s', n) == SeqSum(s, n) + (SeqSum(s, h + n) - SeqSum(s, h))
  {
    if n > 0 { HalvingKeepsSum(s, s', h, n - 1); }
  }

  ghost predicate PowerOfTwo(n: nat)
  {
    n == 1 || (n > 0 && n % 2 == 0 && PowerOfTwo(n / 2))
  }

  function Threads(n: nat): (r: set<nat>)
    ensures forall t: nat :: t in r <==> t < n
  {
    if n == 0 then {} else {n - 1} + Threads(n - 1)
  }

  /** One step of the reduction between two barriers: every thread below `stride` adds the slot `stride`
      above its own. The threads run in any order. */
  method HalvingStep(s: array<real>, threads: nat, stride: nat)
    requires 2 * stride <= threads <= s.Length
    modifies s
    ensures forall t | 0 <= t < stride :: s[t] == old(s[t]) + old(s[t + stride])
    ensures forall t | stride <= t < s.Length :: s[t] == old(s[t])
  {
    var pending := Threads(threads);
    while pending != {}
      invariant forall t | 0 <= t < stride :: s[t] == if t in pending then old(s[t]) else old(s[t]) + old(s[t + stride])
      invariant forall t | stride <= t < s.Length :: s[t] == old(s[t])
      invariant forall t | t in pending :: t < threads
      decreases pending
    {
      var t :| t in pending;
      if t < stride {
        s[t] := s[t] + s[t + stride];
      }
      pending := pending - {t};
    }
  }

  /** The shared-memory tree: afterwards slot 0 holds the sum of the first `threads` slots. */
  method TreeReduce(s: array<real>, threads: nat)
    requires PowerOfTwo(threads) && threads <= s.Length
    modifies s
    ensures s[0] == SeqSum(old(s[..]), threads)
  {
    var stride := threads / 2;
    ghost var width: nat := threads;
    while stride > 0
      invariant PowerOfTwo(width) && stride == width / 2 && 1 <= width <= threads
      invariant SeqSum(s[..], width) == SeqSum(old(s[..]), threads)
    {
      ghost var before := s[..];
      HalvingStep(s, threads, stride);
      HalvingKeepsSum(before, s[..], stride, stride);
      width := stride;
      stride := stride / 2;
    }
    assert SeqSum(s[..], 1) == SeqSum(s[..], 0) + s[0];
  }

  // ---------- warp shuffle ----------

  /** `v += shfl_down(v, off)` on 32 lanes: a lane without a source adds its own value. */
  function ShuffleStep(v: seq<real>, off: nat): (r: seq<real>)
    requires |v| == 32
    ensures |r| == 32
  {
    seq(32, l requires 0 <= l < 32 => v[l] + if l + off < 32 then v[l + off] else v[l])
  }

  /** After the five shuffles lane 0 holds the sum of all lanes. */
  method WarpReduce(lanes: seq<real>) returns (r: real)
    requires |lanes| == 32
    ensures r == SeqSum(lanes, 32)
  {
    var v := lanes;
    var off := 16;
    while off > 0
      invariant |v| == 32 && (off == 16 || off == 8 || off == 4 || off == 2 || off == 1 || off == 0)
      invariant SeqSum(v, if off == 0 then 1 else 2 * off) == SeqSum(lanes, 32)
    {
      var v' := ShuffleStep(v, off);
      HalvingKeepsSum(v, v', off, off);
      v := v';
      off := off / 2;
    }
    assert SeqSum(v, 1) == SeqSum(v, 0) + v[0];
    r := v[0];
  }
}
