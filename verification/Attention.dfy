/** Attention over a fixed query and a fixed key/value cache, over the reals. The two-pass softmax loop, the
    one-pass online softmax and the grouped-head loop are all proved to compute the weighted mean
    `AttnOut`, so they agree with each other. `exp` is any positive function that turns sums into products. */
module Attention {
  import opened Arith
  import opened Wrappers

  ghost predicate IsExp(exp: real -> real) {
    (forall x :: exp(x) > 0.0) && (forall x, y :: exp(x + y) == exp(x) * exp(y))
  }

  // ---------- weighted sums with an arbitrary shift of the scores ----------

  /** Multiplication by name: proofs that only move a product around keep it folded. */
  function Prod(a: real, b: real): real { a * b }

  /** The sum of `exp(s[i] - m)` over the first `n` scores. */
  ghost function Weights(exp: real -> real, s: seq<real>, n: nat, m: real): real
    requires n <= |s|
  {
    if n == 0 then 0.0 else Weights(exp, s, n - 1, m) + exp(s[n - 1] - m)
  }

  /** The sum of `exp(s[i] - m) * v[i]` over the first `n` scores. */
  ghost function Weighted(exp: real -> real, s: seq<real>, v: seq<real>, n: nat, m: real): real
    requires n <= |s| && n <= |v|
  {
    if n == 0 then 0.0 else Weighted(exp, s, v, n - 1, m) + Prod(exp(s[n - 1] - m), v[n - 1])
  }

  /** Softmax attention of one output component: the mean of `v` with weights `exp(s[i])`. */
  ghost function AttnOut(exp: real -> real, s: seq<real>, v: seq<real>): real
    requires |v| == |s|
  {
    if Weights(exp, s, |s|, 0.0) > 0.0
    then Weighted(exp, s, v, |s|, 0.0) / Weights(exp, s, |s|, 0.0)
    else 0.0
  }

  lemma ExpPositive(exp: real -> real, x: real)
    requires IsExp(exp)
    ensures exp(x) > 0.0
  {
  }

  lemma ExpShift(exp: real -> real, x: real, m: real, k: real)
    requires IsExp(exp)
    ensures exp(x - k) == Prod(exp(x - m), exp(m - k))
  {
    assert (x - m) + (m - k) == x - k;
  }

  lemma {:induction false} WeightsPositive(exp: real -> real, s: seq<real>, n: nat, m: real)
    requires IsExp(exp) && n <= |s|
    ensures Weights(exp, s, n, m) >= 0.0 && (n > 0 ==> Weights(exp, s, n, m) > 0.0)
  {
    if n > 0 { WeightsPositive(exp, s, n - 1, m); }
  }

  /** Changing the shift from `m` to `k` multiplies both sums by `exp(m - k)`. */
  lemma {:induction false} Reshift(exp: real -> real, s: seq<real>, v: seq<real>, n: nat, m: real, k: real)
    requires IsExp(exp) && n <= |s| && n <= |v|
    ensures Weights(exp, s, n, k) == Prod(Weights(exp, s, n, m), exp(m - k))
    ensures Weighted(exp, s, v, n, k) == Prod(Weighted(exp, s, v, n, m), exp(m - k))
  {
    hide IsExp, Prod;
    if n == 0 {
      ProdZero(exp(m - k));
    } else {
      Reshift(exp, s, v, n - 1, m, k);
      ExpShift(exp, s[n - 1], m, k);
      Distribute(Weights(exp, s, n - 1, m), exp(s[n - 1] - m), exp(m - k));
      Distribute(Weighted(exp, s, v, n - 1, m), Prod(exp(s[n - 1] - m), v[n - 1]), exp(m - k));
      Exchange(exp(s[n - 1] - m), v[n - 1], exp(m - k));
    }
  }

  lemma Distribute(a: real, b: real, e: real)
    ensures Prod(a, e) + Prod(b, e) == Prod(a + b, e)
  {
  }

  lemma Exchange(b: real, c: real, e: real)
    ensures Prod(Prod(b, c), e) == Prod(Prod(b, e), c)
  {
  }

  lemma ProdIs(a: real, b: real)
    ensures Prod(a, b) == a * b
  {
  }

  lemma ProdZero(a: real)
    ensures Prod(a, 0.0) == Prod(0.0, a) == 0.0
  {
  }

  lemma QuotientOfScaled(a: real, b: real, e: real)
    requires b > 0.0 && e > 0.0
    ensures Prod(b, e) > 0.0 && Prod(a, e) / Prod(b, e) == a / b
  {
    assert b * e > 0.0;
    var q := a / b;
    assert a == q * b;
    assert a * e == q * (b * e);
  }

  /** The quotient of the two sums does not depend on the shift. */
  lemma ShiftInvariant(exp: real -> real, s: seq<real>, v: seq<real>, m: real)
    requires IsExp(exp) && |v| == |s| && s != []
    ensures Weights(exp, s, |s|, m) > 0.0
    ensures Weighted(exp, s, v, |s|, m) / Weights(exp, s, |s|, m) == AttnOut(exp, s, v)
  {
    hide IsExp, Weights, Weighted, Prod;
    WeightsPositive(exp, s, |s|, m);
    WeightsPositive(exp, s, |s|, 0.0);
    Reshift(exp, s, v, |s|, 0.0, m);
    ExpPositive(exp, 0.0 - m);
    QuotientOfScaled(Weighted(exp, s, v, |s|, 0.0), Weights(exp, s, |s|, 0.0), exp(0.0 - m));
  }

  // ---------- dot products ----------

  method PlainDot(a: seq<real>, ao: nat, b: seq<real>, bo: nat, n: nat) returns (r: real)
    requires ao + n <= |a| && bo + n <= |b|
    ensures r == Dot(a, ao, b, bo, n)
  {
    r := 0.0;
    for d := 0 to n
      invariant r == Dot(a, ao, b, bo, d)
    {
      r := r + a[ao + d] * b[bo + d];
    }
  }

  /** Four products per step into one accumulator, then the remainder. */
  method UnrolledDot(a: seq<real>, ao: nat, b: seq<real>, bo: nat, n: nat) returns (r: real)
    requires ao + n <= |a| && bo + n <= |b|
    ensures r == Dot(a, ao, b, bo, n)
  {
    r := 0.0;
    var chunks := n / 4;
    for c := 0 to chunks
      invariant r == Dot(a, ao, b, bo, c * 4)
    {
      var i := c * 4;
      DotFour(a, ao, b, bo, i);
      r := r + (a[ao + i] * b[bo + i] + a[ao + i + 1] * b[bo + i + 1]
              + a[ao + i + 2] * b[bo + i + 2] + a[ao + i + 3] * b[bo + i + 3]);
    }
    for i := chunks * 4 to n
      invariant r == Dot(a, ao, b, bo, i)
    {
      r := r + a[ao + i] * b[bo + i];
    }
  }

  lemma DotFour(a: seq<real>, ao: nat, b: seq<real>, bo: nat, i: nat)
    requires ao + i + 4 <= |a| && bo + i + 4 <= |b|
    ensures Dot(a, ao, b, bo, i + 4) == Dot(a, ao, b, bo, i) + a[ao + i] * b[bo + i]
      + a[ao + i + 1] * b[bo + i + 1] + a[ao + i + 2] * b[bo + i + 2] + a[ao + i + 3] * b[bo + i + 3]
  {
    assert Dot(a, ao, b, bo, i + 1) == Dot(a, ao, b, bo, i) + a[ao + i] * b[bo + i];
    assert Dot(a, ao, b, bo, i + 2) == Dot(a, ao, b, bo, i + 1) + a[ao + i + 1] * b[bo + i + 1];
    assert Dot(a, ao, b, bo, i + 3) == Dot(a, ao, b, bo, i + 2) + a[ao + i + 2] * b[bo + i + 2];
  }

  /** Four accumulators, one per residue modulo 4, added up at the end, then the remainder. */
  method SimdDot(a: seq<real>, ao: nat, b: seq<real>, bo: nat, n: nat) returns (r: real)
    requires ao + n <= |a| && bo + n <= |b|
    ensures r == Dot(a, ao, b, bo, n)
  {
    var chunks := n / 4;
    var acc0, acc1, acc2, acc3 := 0.0, 0.0, 0.0, 0.0;
    for c := 0 to chunks
      invariant acc0 + acc1 + acc2 + acc3 == Dot(a, ao, b, bo, c * 4)
    {
      var i := c * 4;
      DotFour(a, ao, b, bo, i);
      acc0 := acc0 + a[ao + i] * b[bo + i];
      acc1 := acc1 + a[ao + i + 1] * b[bo + i + 1];
      acc2 := acc2 + a[ao + i + 2] * b[bo + i + 2];
      acc3 := acc3 + a[ao + i + 3] * b[bo + i + 3];
    }
    r := (acc0 + acc1) + (acc2 + acc3);
    for i := chunks * 4 to n
      invariant r == Dot(a, ao, b, bo, i)
    {
      r := r + a[ao + i] * b[bo + i];
    }
  }

  // ---------- the reference for one head ----------

  /** The fixed inputs: rotated queries, cached vectors per position, and the head layout. */
  datatype Inputs = Inputs(q: seq<real>, keys: seq<seq<real>>, values: seq<seq<real>>,
                           nHead: nat, nHeadKv: nat, headDim: nat, scale: real)
  {
    predicate Ok() {
      && nHeadKv > 0 && |q| == nHead * headDim && |values| == |keys|
      && (forall p | 0 <= p < |keys| :: |keys[p]| == nHeadKv * headDim && |values[p]| == nHeadKv * headDim)
    }
  }

  /** The score of head `h` against one position of key/value head `kv`. */
  ghost function Score(x: Inputs, h: nat, kv: nat, p: nat): real
    requires x.Ok() && h < x.nHead && kv < x.nHeadKv && p < |x.keys|
  {
    MulStep(h, x.nHead, x.headDim);
    MulStep(kv, x.nHeadKv, x.headDim);
    Dot(x.q, h * x.headDim, x.keys[p], kv * x.headDim, x.headDim) * x.scale
  }

  /** One number per head: query times key times scale. */
  lemma ScoreOfOne(x: Inputs, h: nat, kv: nat, p: nat)
    requires x.Ok() && h < x.nHead && kv < x.nHeadKv && p < |x.keys| && x.headDim == 1
    ensures Score(x, h, kv, p) == x.q[h] * x.keys[p][kv] * x.scale
  {
    assert Dot(x.q, h, x.keys[p], kv, 1) == Dot(x.q, h, x.keys[p], kv, 0) + x.q[h] * x.keys[p][kv];
  }

  ghost predicate InCache(x: Inputs, ps: seq<nat>) { forall i | 0 <= i < |ps| :: ps[i] < |x.keys| }

  ghost function Scores(x: Inputs, h: nat, kv: nat, ps: seq<nat>): (s: seq<real>)
    requires x.Ok() && h < x.nHead && kv < x.nHeadKv && InCache(x, ps)
    ensures |s| == |ps|
  {
    seq(|ps|, i requires 0 <= i < |ps| => Score(x, h, kv, ps[i]))
  }

  /** Component `d` of the value vectors at the visible positions. */
  ghost function Column(x: Inputs, kv: nat, ps: seq<nat>, d: nat): (v: seq<real>)
    requires x.Ok() && kv < x.nHeadKv && d < x.headDim && InCache(x, ps)
    ensures |v| == |ps|
  {
    MulStep(kv, x.nHeadKv, x.headDim);
    seq(|ps|, i requires 0 <= i < |ps| => x.values[ps[i]][kv * x.headDim + d])
  }

  /** The attention output of head `h` at component `d` over the visible positions `ps`. */
  ghost function HeadOut(x: Inputs, exp: real -> real, h: nat, kv: nat, ps: seq<nat>, d: nat): real
    requires x.Ok() && h < x.nHead && kv < x.nHeadKv && d < x.headDim && InCache(x, ps)
  {
    AttnOut(exp, Scores(x, h, kv, ps), Column(x, kv, ps, d))
  }

  function Range(lo: nat, hi: nat): (r: seq<nat>)
    ensures |r| == if lo <= hi then hi - lo else 0
    ensures forall i | 0 <= i < |r| :: r[i] == lo + i
  {
    if lo <= hi then seq(hi - lo, i => lo + i) else []
  }

  // ---------- one pass: online softmax ----------

  /** The state of the online loop after the first `n` scores: both sums, shifted by the largest score so far. */
  ghost predicate OnlineState(exp: real -> real, s: seq<real>, n: nat, max: Extended, sum: real)
    requires n <= |s|
  {
    match max
    case NegInfinity => n == 0 && sum == 0.0
    case Finite(m) =>
      && n > 0 && sum == Weights(exp, s, n, m)
      && (exists i :: 0 <= i < n && s[i] == m) && forall i | 0 <= i < n :: s[i] <= m
  }

  ghost predicate OnlineAcc(exp: real -> real, s: seq<real>, v: seq<real>, n: nat, max: Extended, acc: real)
    requires n <= |s| && n <= |v|
  {
    match max
    case NegInfinity => acc == 0.0
    case Finite(m) => acc == Weighted(exp, s, v, n, m)
  }

  /** The larger of the running maximum and a score. */
  function NextMax(max: Extended, score: real): real {
    if max.NegInfinity? || score > max.value then score else max.value
  }

  /** A sum over the scores so far, rescaled to the new maximum. */
  function Rescaled(exp: real -> real, max: Extended, sum: real, score: real): real {
    if max.NegInfinity? then 0.0 else if score > max.value then Prod(sum, exp(max.value - score)) else sum
  }

  /** The sum, and one component of the accumulator, after one more score. */
  function NextSum(exp: real -> real, max: Extended, sum: real, score: real): real {
    Rescaled(exp, max, sum, score) + exp(score - NextMax(max, score))
  }

  function NextAcc(exp: real -> real, max: Extended, acc: real, score: real, value: real): real {
    Rescaled(exp, max, acc, score) + Prod(exp(score - NextMax(max, score)), value)
  }

  lemma OnlineStep(exp: real -> real, s: seq<real>, n: nat, max: Extended, sum: real)
    requires IsExp(exp) && n < |s| && OnlineState(exp, s, n, max, sum)
    ensures OnlineState(exp, s, n + 1, Finite(NextMax(max, s[n])), NextSum(exp, max, sum, s[n]))
  {
    hide IsExp, Prod;
    var m := NextMax(max, s[n]);
    assert Weights(exp, s, n + 1, m) == Weights(exp, s, n, m) + exp(s[n] - m);
    if max.Finite? {
      if s[n] > max.value {
        Reshift(exp, s, s, n, max.value, s[n]);
        assert s[n] == m;
      } else {
        var i :| 0 <= i < n && s[i] == max.value;
        assert s[i] == m;
      }
    } else {
      assert s[0] == m;
    }
  }

  lemma OnlineAccStep(exp: real -> real, s: seq<real>, v: seq<real>, n: nat, max: Extended, sum: real, acc: real)
    requires IsExp(exp) && n < |s| && n < |v| && OnlineState(exp, s, n, max, sum) && OnlineAcc(exp, s, v, n, max, acc)
    ensures OnlineAcc(exp, s, v, n + 1, Finite(NextMax(max, s[n])), NextAcc(exp, max, acc, s[n], v[n]))
  {
    hide IsExp, Prod;
    var m := NextMax(max, s[n]);
    assert Weighted(exp, s, v, n + 1, m) == Weighted(exp, s, v, n, m) + Prod(exp(s[n] - m), v[n]);
    if max.Finite? && s[n] > max.value { Reshift(exp, s, v, n, max.value, s[n]); }
  }

  method ScaleInPlace(x: array<real>, factor: real)
    modifies x
    ensures forall i | 0 <= i < x.Length :: x[i] == Prod(old(x[i]), factor)
  {
    for i := 0 to x.Length
      invariant forall k | 0 <= k < i :: x[k] == Prod(old(x[k]), factor)
      invariant forall k | i <= k < x.Length :: x[k] == old(x[k])
    {
      x[i] := x[i] * factor;
    }
  }

  method AddScaled(x: array<real>, weight: real, row: seq<real>, offset: nat)
    requires offset + x.Length <= |row|
    modifies x
    ensures forall i | 0 <= i < x.Length :: x[i] == old(x[i]) + Prod(weight, row[offset + i])
  {
    for i := 0 to x.Length
      invariant forall k | 0 <= k < i :: x[k] == old(x[k]) + Prod(weight, row[offset + k])
      invariant forall k | i <= k < x.Length :: x[k] == old(x[k])
    {
      x[i] := x[i] + weight * row[offset + i];
    }
  }

  /** One score in the online loop: raise the maximum, rescale, add. */
  method OnlineUpdate(exp: real -> real, max: Extended, sum0: real, acc: array<real>, score: real,
                      row: seq<real>, offset: nat) returns (m: real, sum: real)
    requires offset + acc.Length <= |row| && IsExp(exp)
    modifies acc
    ensures m == NextMax(max, score) && sum == NextSum(exp, max, sum0, score)
    ensures forall d | 0 <= d < acc.Length :: acc[d] == NextAcc(exp, max, old(acc[d]), score, row[offset + d])
  {
    hide IsExp;
    sum := sum0;
    if max.NegInfinity? || score > max.value {
      var correction := if max.NegInfinity? then 0.0 else exp(max.value - score);
      sum := sum * correction;
      forall a: real ensures Prod(a, 0.0) == 0.0 { ProdZero(a); }
      ScaleInPlace(acc, correction);
      m := score;
    } else {
      m := max.value;
    }
    var weight := exp(score - m);
    sum := sum + weight;
    AddScaled(acc, weight, row, offset);
  }

  method HeadScore(x: Inputs, h: nat, kv: nat, p: nat, unrolled: bool) returns (score: real)
    requires x.Ok() && h < x.nHead && kv < x.nHeadKv && p < |x.keys|
    ensures score == Score(x, h, kv, p)
  {
    MulStep(h, x.nHead, x.headDim);
    MulStep(kv, x.nHeadKv, x.headDim);
    var dot;
    if unrolled {
      dot := UnrolledDot(x.q, h * x.headDim, x.keys[p], kv * x.headDim, x.headDim);
    } else {
      dot := PlainDot(x.q, h * x.headDim, x.keys[p], kv * x.headDim, x.headDim);
    }
    score := dot * x.scale;
  }

  /** The accumulator vector after the first `n` visible positions. */
  ghost predicate OnlineAccs(x: Inputs, exp: real -> real, s: seq<real>, kv: nat, ps: seq<nat>, n: nat,
                             max: Extended, acc: seq<real>)
    requires x.Ok() && kv < x.nHeadKv && InCache(x, ps) && |s| == |ps| && n <= |s|
  {
    |acc| == x.headDim && forall d | 0 <= d < x.headDim :: OnlineAcc(exp, s, Column(x, kv, ps, d), n, max, acc[d])
  }

  lemma OnlineAccsLength(x: Inputs, exp: real -> real, s: seq<real>, kv: nat, ps: seq<nat>, n: nat,
                         max: Extended, acc: seq<real>)
    requires x.Ok() && kv < x.nHeadKv && InCache(x, ps) && |s| == |ps| && n <= |s|
    requires OnlineAccs(x, exp, s, kv, ps, n, max, acc)
    ensures |acc| == x.headDim
  {
  }

  lemma OnlineAccsStep(x: Inputs, exp: real -> real, s: seq<real>, kv: nat, ps: seq<nat>, n: nat,
                       max: Extended, sum: real, acc: seq<real>, acc': seq<real>)
    requires IsExp(exp) && x.Ok() && kv < x.nHeadKv && InCache(x, ps) && |s| == |ps| && n < |s|
    requires OnlineState(exp, s, n, max, sum) && OnlineAccs(x, exp, s, kv, ps, n, max, acc) && |acc'| == x.headDim
    requires kv * x.headDim + x.headDim <= x.nHeadKv * x.headDim
    requires forall d | 0 <= d < x.headDim ::
      acc'[d] == NextAcc(exp, max, acc[d], s[n], x.values[ps[n]][kv * x.headDim + d])
    ensures OnlineAccs(x, exp, s, kv, ps, n + 1, Finite(NextMax(max, s[n])), acc')
  {
    hide IsExp, OnlineState, OnlineAcc, NextAcc;
    forall d | 0 <= d < x.headDim
      ensures OnlineAcc(exp, s, Column(x, kv, ps, d), n + 1, Finite(NextMax(max, s[n])), acc'[d])
    {
      var v := Column(x, kv, ps, d);
      assert v[n] == x.values[ps[n]][kv * x.headDim + d];
      OnlineAccStep(exp, s, v, n, max, sum, acc[d]);
    }
  }

  method OnlinePosition(x: Inputs, exp: real -> real, h: nat, kv: nat, ghost ps: seq<nat>, ghost n: nat, pos: nat,
                        max: Extended, sum: real, acc: array<real>, unrolled: bool) returns (max': Extended, sum': real)
    requires IsExp(exp) && x.Ok() && h < x.nHead && kv < x.nHeadKv && InCache(x, ps) && n < |ps| && ps[n] == pos
    requires OnlineState(exp, Scores(x, h, kv, ps), n, max, sum)
    requires OnlineAccs(x, exp, Scores(x, h, kv, ps), kv, ps, n, max, acc[..])
    modifies acc
    ensures OnlineState(exp, Scores(x, h, kv, ps), n + 1, max', sum')
    ensures OnlineAccs(x, exp, Scores(x, h, kv, ps), kv, ps, n + 1, max', acc[..])
  {
    hide IsExp, Score, OnlineState, OnlineAccs, Column, NextSum, NextAcc;
    MulStep(kv, x.nHeadKv, x.headDim);
    var score := HeadScore(x, h, kv, pos, unrolled);
    ghost var before, s := acc[..], Scores(x, h, kv, ps);
    assert s[n] == score;
    OnlineAccsLength(x, exp, s, kv, ps, n, max, before);
    OnlineStep(exp, s, n, max, sum);
    var m;
    m, sum' := OnlineUpdate(exp, max, sum, acc, score, x.values[pos], kv * x.headDim);
    max' := Finite(m);
    OnlineAccsStep(x, exp, s, kv, ps, n, max, sum, before, acc[..]);
  }

  method OnlineHead(x: Inputs, exp: real -> real, h: nat, kv: nat, start: nat, end: nat, unrolled: bool)
    returns (acc: array<real>, sum: real)
    requires IsExp(exp) && x.Ok() && h < x.nHead && kv < x.nHeadKv && end <= |x.keys|
    ensures fresh(acc) && acc.Length == x.headDim
    ensures sum > 0.0 <==> start < end
    ensures forall d | 0 <= d < x.headDim ::
      HeadOut(x, exp, h, kv, Range(start, end), d) == if sum > 0.0 then acc[d] / sum else 0.0
  {
    hide IsExp, Score, OnlineState, OnlineAccs, Column, AttnOut;
    MulStep(kv, x.nHeadKv, x.headDim);
    var runningMax: Extended := NegInfinity;
    sum := 0.0;
    acc := new real[x.headDim](_ => 0.0);
    ghost var ps := Range(start, end);
    ghost var s := Scores(x, h, kv, ps);
    OnlineStart(x, exp, s, kv, ps, acc[..]);
    var pos := start;
    while pos < end
      invariant start <= pos && (start < end ==> pos <= end) && (start >= end ==> pos == start)
      invariant OnlineState(exp, s, pos - start, runningMax, sum)
      invariant OnlineAccs(x, exp, s, kv, ps, pos - start, runningMax, acc[..])
    {
      runningMax, sum := OnlinePosition(x, exp, h, kv, ps, pos - start, pos, runningMax, sum, acc, unrolled);
      pos := pos + 1;
    }
    OnlineEnd(x, exp, s, kv, ps, runningMax, sum, acc[..]);
  }

  lemma OnlineStart(x: Inputs, exp: real -> real, s: seq<real>, kv: nat, ps: seq<nat>, acc: seq<real>)
    requires x.Ok() && kv < x.nHeadKv && InCache(x, ps) && |s| == |ps|
    requires |acc| == x.headDim && forall d | 0 <= d < x.headDim :: acc[d] == 0.0
    ensures OnlineState(exp, s, 0, NegInfinity, 0.0) && OnlineAccs(x, exp, s, kv, ps, 0, NegInfinity, acc)
  {
  }

  lemma OnlineEnd(x: Inputs, exp: real -> real, s: seq<real>, kv: nat, ps: seq<nat>,
                  max: Extended, sum: real, acc: seq<real>)
    requires IsExp(exp) && x.Ok() && kv < x.nHeadKv && InCache(x, ps) && |s| == |ps|
    requires OnlineState(exp, s, |s|, max, sum) && OnlineAccs(x, exp, s, kv, ps, |s|, max, acc)
    ensures (sum > 0.0 <==> s != []) && |acc| == x.headDim
    ensures forall d | 0 <= d < x.headDim ::
      AttnOut(exp, s, Column(x, kv, ps, d)) == if sum > 0.0 then acc[d] / sum else 0.0
  {
    hide IsExp, AttnOut, OnlineState, OnlineAcc, Column;
    OnlineSum(exp, s, max, sum);
    forall d | 0 <= d < x.headDim
      ensures AttnOut(exp, s, Column(x, kv, ps, d)) == if sum > 0.0 then acc[d] / sum else 0.0
    {
      OnlineResult(exp, s, Column(x, kv, ps, d), max, sum, acc[d]);
    }
  }

  lemma OnlineSum(exp: real -> real, s: seq<real>, max: Extended, sum: real)
    requires IsExp(exp) && OnlineState(exp, s, |s|, max, sum)
    ensures sum > 0.0 <==> s != []
  {
    if max.Finite? { WeightsPositive(exp, s, |s|, max.value); }
  }

  lemma OnlineResult(exp: real -> real, s: seq<real>, v: seq<real>, max: Extended, sum: real, acc: real)
    requires IsExp(exp) && |v| == |s| && OnlineState(exp, s, |s|, max, sum) && OnlineAcc(exp, s, v, |s|, max, acc)
    ensures s != [] ==> sum > 0.0
    ensures AttnOut(exp, s, v) == if s != [] then acc / sum else 0.0
  {
    hide IsExp;
    if s != [] {
      ShiftInvariant(exp, s, v, max.value);
    }
  }

  // ---------- two passes ----------

  method ExpAndSum(exp: real -> real, x: array<real>, max: real) returns (sum: real)
    modifies x
    ensures forall i | 0 <= i < x.Length :: x[i] == exp(old(x[i]) - max)
    ensures sum == Weights(exp, old(x[..]), x.Length, max)
  {
    sum := 0.0;
    for i := 0 to x.Length
      invariant sum == Weights(exp, old(x[..]), i, max)
      invariant forall k | 0 <= k < i :: x[k] == exp(old(x[k]) - max)
      invariant forall k | i <= k < x.Length :: x[k] == old(x[k])
    {
      x[i] := exp(x[i] - max);
      sum := sum + x[i];
    }
  }

  /** Maximum, exponentials and sum, division: the normalised weights of the scores. */
  method SoftmaxInPlace(exp: real -> real, x: array<real>)
    requires IsExp(exp)
    modifies x
    ensures forall i | 0 <= i < x.Length ::
      Weights(exp, old(x[..]), x.Length, 0.0) > 0.0
      && x[i] == exp(old(x[i]) - 0.0) / Weights(exp, old(x[..]), x.Length, 0.0)
  {
    hide IsExp, Weights;
    ghost var s := x[..];
    if x.Length == 0 { return; }
    var max := x[0];
    for i := 1 to x.Length
    {
      if x[i] > max { max := x[i]; }
    }
    var sum := ExpAndSum(exp, x, max);
    WeightsPositive(exp, s, |s|, max);
    if sum > 0.0 {
      ScaleInPlace(x, 1.0 / sum);
      forall i | 0 <= i < x.Length
        ensures Weights(exp, s, |s|, 0.0) > 0.0 && x[i] == exp(s[i] - 0.0) / Weights(exp, s, |s|, 0.0)
      {
        NormalisedWeight(exp, s, i, max);
      }
    }
  }

  lemma NormalisedWeight(exp: real -> real, s: seq<real>, i: nat, m: real)
    requires IsExp(exp) && i < |s|
    ensures Weights(exp, s, |s|, m) > 0.0 && Weights(exp, s, |s|, 0.0) > 0.0
    ensures Prod(exp(s[i] - m), 1.0 / Weights(exp, s, |s|, m)) == exp(s[i] - 0.0) / Weights(exp, s, |s|, 0.0)
  {
    hide IsExp, Weights, Weighted, Prod;
    WeightsPositive(exp, s, |s|, m);
    WeightsPositive(exp, s, |s|, 0.0);
    Reshift(exp, s, s, |s|, 0.0, m);
    ExpShift(exp, s[i], 0.0, m);
    ExpPositive(exp, 0.0 - m);
    QuotientOfScaled(exp(s[i] - 0.0), Weights(exp, s, |s|, 0.0), exp(0.0 - m));
    TimesInverse(exp(s[i] - m), Weights(exp, s, |s|, m));
  }

  lemma TimesInverse(a: real, b: real)
    requires b > 0.0
    ensures Prod(a, 1.0 / b) == a / b
  {
    var i := 1.0 / b;
    assert i * b == 1.0;
    assert (a * i) * b == a * (i * b);
  }

  /** Summing normalised weights times values gives the weighted mean. */
  lemma {:induction false} NormalisedSum(exp: real -> real, s: seq<real>, v: seq<real>, n: nat, total: real)
    requires n < |s| && |v| == |s| && total > 0.0
    ensures Weighted(exp, s, v, n, 0.0) / total + Prod(exp(s[n] - 0.0) / total, v[n])
      == Weighted(exp, s, v, n + 1, 0.0) / total
  {
    var a, e, w := Weighted(exp, s, v, n, 0.0), exp(s[n] - 0.0), v[n];
    var qa, qe := a / total, e / total;
    assert qa * total == a && qe * total == e;
    assert (qa + qe * w) * total == a + e * w;
  }

  /** The scores of one head at the visible positions, with the four-accumulator or the plain dot product. */
  method HeadScores(x: Inputs, h: nat, kv: nat, ps: seq<nat>, simd: bool) returns (scores: array<real>)
    requires x.Ok() && h < x.nHead && kv < x.nHeadKv && InCache(x, ps)
    ensures fresh(scores) && scores[..] == Scores(x, h, kv, ps)
  {
    MulStep(h, x.nHead, x.headDim);
    MulStep(kv, x.nHeadKv, x.headDim);
    scores := new real[|ps|](_ => 0.0);
    for i := 0 to |ps|
      invariant forall k | 0 <= k < i :: scores[k] == Score(x, h, kv, ps[k])
    {
      var dot;
      if simd {
        dot := SimdDot(x.q, h * x.headDim, x.keys[ps[i]], kv * x.headDim, x.headDim);
      } else {
        dot := PlainDot(x.q, h * x.headDim, x.keys[ps[i]], kv * x.headDim, x.headDim);
      }
      scores[i] := dot * x.scale;
    }
  }

  method WeightedColumn(x: Inputs, exp: real -> real, ghost s: seq<real>, probs: seq<real>,
                        kv: nat, ps: seq<nat>, d: nat) returns (r: real)
    requires x.Ok() && kv < x.nHeadKv && d < x.headDim && InCache(x, ps) && |s| == |ps| == |probs|
    requires forall i | 0 <= i < |ps| ::
      Weights(exp, s, |s|, 0.0) > 0.0 && probs[i] == exp(s[i] - 0.0) / Weights(exp, s, |s|, 0.0)
    ensures r == AttnOut(exp, s, Column(x, kv, ps, d))
  {
    hide Weights, Prod;
    MulStep(kv, x.nHeadKv, x.headDim);
    EmptyWeights(exp, s);
    r := 0.0;
    ghost var v, total := Column(x, kv, ps, d), Weights(exp, s, |s|, 0.0);
    for i := 0 to |ps|
      invariant i > 0 ==> total > 0.0
      invariant r == if total > 0.0 then Weighted(exp, s, v, i, 0.0) / total else 0.0
    {
      assert total > 0.0 && probs[i] == exp(s[i] - 0.0) / total;
      NormalisedSum(exp, s, v, i, total);
      ProdIs(probs[i], x.values[ps[i]][kv * x.headDim + d]);
      r := r + probs[i] * x.values[ps[i]][kv * x.headDim + d];
    }
  }

  method TwoPassHead(x: Inputs, exp: real -> real, h: nat, kv: nat, ps: seq<nat>, simd: bool) returns (acc: array<real>)
    requires IsExp(exp) && x.Ok() && h < x.nHead && kv < x.nHeadKv && InCache(x, ps)
    ensures fresh(acc) && acc.Length == x.headDim
    ensures forall d | 0 <= d < x.headDim :: acc[d] == HeadOut(x, exp, h, kv, ps, d)
  {
    hide IsExp, Score, Weights, Column, AttnOut;
    var scores := HeadScores(x, h, kv, ps, simd);
    ghost var s := scores[..];
    SoftmaxInPlace(exp, scores);
    var probs := scores[..];
    acc := new real[x.headDim](_ => 0.0);
    for d := 0 to x.headDim
      invariant forall k | 0 <= k < d :: acc[k] == HeadOut(x, exp, h, kv, ps, k)
    {
      acc[d] := WeightedColumn(x, exp, s, probs, kv, ps, d);
    }
  }

  lemma EmptyWeights(exp: real -> real, s: seq<real>)
    ensures s == [] ==> Weights(exp, s, |s|, 0.0) == 0.0
  {
  }

  // ---------- all heads ----------

  function GroupSize(x: Inputs): nat
    requires x.nHeadKv > 0
  {
    if x.nHead / x.nHeadKv > 1 then x.nHead / x.nHeadKv else 1
  }

  /** The key/value head that a query head uses. */
  function KvHead(x: Inputs, h: nat): nat
    requires x.nHeadKv > 0
  {
    h / GroupSize(x)
  }

  /** The key/value head of every query head exists. */
  ghost predicate HeadsFit(x: Inputs)
    requires x.nHeadKv > 0
  {
    forall h: nat | h < x.nHead :: KvHead(x, h) < x.nHeadKv
  }

  lemma DivBelow(a: nat, n: nat, d: nat)
    requires d > 0
    ensures a / d < n <==> a < n * d
  {
    var q, r := a / d, a % d;
    assert a == q * d + r;
    if q < n { MulStep(q, n, d); }
    if q >= n { assert q * d == n * d + (q - n) * d; }
  }

  lemma GroupsCover(n: nat, k: nat)
    requires k > 0
    ensures n <= k * (if n / k > 1 then n / k else 1) <==> n % k == 0 || n < k
  {
    var q, r := n / k, n % k;
    assert n == q * k + r;
    if q > 1 {
      assert k * q == q * k;
    }
  }

  /** The loops over all query heads read inside the cache exactly if `nHeadKv` divides `nHead` or exceeds it. */
  lemma HeadsFitIff(x: Inputs)
    requires x.nHeadKv > 0
    ensures HeadsFit(x) <==> x.nHead % x.nHeadKv == 0 || x.nHead < x.nHeadKv
  {
    var g := GroupSize(x);
    GroupsCover(x.nHead, x.nHeadKv);
    if x.nHead <= x.nHeadKv * g {
      forall h: nat | h < x.nHead ensures KvHead(x, h) < x.nHeadKv { DivBelow(h, x.nHeadKv, g); }
    } else {
      DivBelow(x.nHeadKv * g, x.nHeadKv, g);
      assert KvHead(x, x.nHeadKv * g) >= x.nHeadKv;
    }
  }

  /** Component `d` of the output of query head `h` against its own key/value head. */
  ghost function HeadAt(x: Inputs, exp: real -> real, ps: seq<nat>, h: nat, d: nat): real
    requires x.Ok() && InCache(x, ps) && h < x.nHead && KvHead(x, h) < x.nHeadKv && d < x.headDim
  {
    HeadOut(x, exp, h, KvHead(x, h), ps, d)
  }

  /** The full output: head `i / headDim`, component `i % headDim`; zero behind the last head, and for a head whose
      key/value head does not exist. */
  ghost function FullOut(x: Inputs, exp: real -> real, ps: seq<nat>, i: nat): real
    requires x.Ok() && InCache(x, ps)
  {
    if i < x.nHead * x.headDim then
      RowOf(i, x.nHead, x.headDim);
      if KvHead(x, i / x.headDim) < x.nHeadKv then HeadAt(x, exp, ps, i / x.headDim, i % x.headDim) else 0.0
    else 0.0
  }

  /** Output slot `h * headDim + d` belongs to head `h`. */
  lemma FullOutAt(x: Inputs, exp: real -> real, ps: seq<nat>, h: nat, d: nat)
    requires x.Ok() && InCache(x, ps) && h < x.nHead && KvHead(x, h) < x.nHeadKv && d < x.headDim
    ensures FullOut(x, exp, ps, h * x.headDim + d) == HeadAt(x, exp, ps, h, d)
  {
    MulStep(h, x.nHead, x.headDim);
    ModUnique(h * x.headDim + d, x.headDim, h, d);
  }

  /** The first `n` output slots are final, the rest still zero. */
  ghost predicate Stored(x: Inputs, exp: real -> real, ps: seq<nat>, out: seq<real>, n: int)
    requires x.Ok() && InCache(x, ps)
  {
    forall i | 0 <= i < |out| :: out[i] == if i < n then FullOut(x, exp, ps, i) else 0.0
  }

  ghost predicate IsHead(x: Inputs, exp: real -> real, ps: seq<nat>, h: nat, head: seq<real>)
    requires x.Ok() && InCache(x, ps) && h < x.nHead && KvHead(x, h) < x.nHeadKv
  {
    |head| == x.headDim && forall d | 0 <= d < x.headDim :: head[d] == HeadAt(x, exp, ps, h, d)
  }

  /** One head's vector is stored behind the heads before it. */
  method StoreHead(x: Inputs, exp: real -> real, ghost ps: seq<nat>, h: nat, head: seq<real>, out: array<real>)
    requires x.Ok() && InCache(x, ps) && h < x.nHead && KvHead(x, h) < x.nHeadKv && IsHead(x, exp, ps, h, head)
    requires Stored(x, exp, ps, out[..], h * x.headDim)
    modifies out
    ensures (h + 1) * x.headDim == h * x.headDim + x.headDim
    ensures Stored(x, exp, ps, out[..], h * x.headDim + x.headDim)
  {
    hide FullOut, HeadAt, KvHead;
    var offset := h * x.headDim;
    assert (h + 1) * x.headDim == offset + x.headDim;
    MulStep(h, x.nHead, x.headDim);
    for d := 0 to x.headDim
      invariant Stored(x, exp, ps, out[..], offset + d)
    {
      FullOutAt(x, exp, ps, h, d);
      if offset + d < out.Length {
        out[offset + d] := head[d];
      }
    }
  }

  /** Two passes per head over the whole cache: the simple reference loop. */
  method MultiHeadAttention(x: Inputs, exp: real -> real, nEmbd: nat) returns (out: array<real>)
    requires IsExp(exp) && x.Ok() && HeadsFit(x)
    ensures out.Length == nEmbd
    ensures forall i | 0 <= i < nEmbd :: out[i] == FullOut(x, exp, Range(0, |x.keys|), i)
  {
    hide IsExp, FullOut, HeadOut;
    ghost var ps := Range(0, |x.keys|);
    out := new real[nEmbd](_ => 0.0);
    for h := 0 to x.nHead
      invariant fresh(out) && out.Length == nEmbd
      invariant Stored(x, exp, ps, out[..], h * x.headDim)
    {
      var acc := TwoPassHead(x, exp, h, KvHead(x, h), Range(0, |x.keys|), false);
      StoreHead(x, exp, ps, h, acc[..], out);
    }
    BehindHeads(x, exp, ps);
  }

  lemma BehindHeads(x: Inputs, exp: real -> real, ps: seq<nat>)
    requires x.Ok() && InCache(x, ps)
    ensures forall i: nat :: i >= x.nHead * x.headDim ==> FullOut(x, exp, ps, i) == 0.0
  {
  }

  /** One pass per head over positions `windowStart` up to `windowEnd` or the end of the cache. */
  method FlashAttention(x: Inputs, exp: real -> real, nEmbd: nat, windowStart: nat, windowEnd: nat, unrolled: bool)
    returns (out: array<real>)
    requires IsExp(exp) && x.Ok() && HeadsFit(x)
    ensures out.Length == nEmbd
    ensures var end := if windowEnd < |x.keys| then windowEnd else |x.keys|;
      forall i | 0 <= i < nEmbd :: out[i] == FullOut(x, exp, Range(windowStart, end), i)
  {
    hide IsExp, FullOut, HeadOut;
    var end := if windowEnd < |x.keys| then windowEnd else |x.keys|;
    ghost var ps := Range(windowStart, end);
    out := new real[nEmbd](_ => 0.0);
    for h := 0 to x.nHead
      invariant fresh(out) && out.Length == nEmbd
      invariant Stored(x, exp, ps, out[..], h * x.headDim)
    {
      var acc, sum := OnlineHead(x, exp, h, KvHead(x, h), windowStart, end, unrolled);
      var inv := if sum > 0.0 then 1.0 / sum else 0.0;
      var head := seq(x.headDim, d requires 0 <= d < x.headDim && acc.Length == x.headDim reads acc => acc[d] * inv);
      forall d | 0 <= d < x.headDim ensures head[d] == HeadOut(x, exp, h, KvHead(x, h), ps, d) {
        if sum > 0.0 { TimesInverse(acc[d], sum); }
      }
      StoreHead(x, exp, ps, h, head, out);
    }
    BehindHeads(x, exp, ps);
  }

  /** The positions that the sliding window shows: the sink tokens and the last `window` positions. */
  function VisiblePositions(seqLen: nat, window: nat, sinks: nat): (ps: seq<nat>) {
    if window > 0 && seqLen > window + sinks then Range(0, sinks) + Range(seqLen - window, seqLen)
    else Range(0, seqLen)
  }

  /** Visible positions are strictly increasing, inside the cache, and exactly the sinks and the window. */
  lemma VisibleExactly(seqLen: nat, window: nat, sinks: nat)
    ensures var ps := VisiblePositions(seqLen, window, sinks);
      && (forall i, j | 0 <= i < j < |ps| :: ps[i] < ps[j])
      && (forall p: nat :: p in ps <==> p < seqLen && (window == 0 || p < sinks || p + window >= seqLen))
  {
    var ps := VisiblePositions(seqLen, window, sinks);
    forall p: nat ensures p in ps <==> p < seqLen && (window == 0 || p < sinks || p + window >= seqLen) {
      if p < seqLen && (window == 0 || p < sinks || p + window >= seqLen) {
        if window > 0 && seqLen > window + sinks {
          if p < sinks { assert ps[p] == p; } else { assert ps[sinks + p - (seqLen - window)] == p; }
        } else {
          assert ps[p] == p;
        }
      }
    }
  }

  /** The query heads of one group, all against the same key/value head. */
  method GroupHeads(x: Inputs, exp: real -> real, ps: seq<nat>, kv: nat, out: array<real>)
    requires IsExp(exp) && x.Ok() && InCache(x, ps) && kv < x.nHeadKv
    requires Stored(x, exp, ps, out[..], kv * (x.nHead / x.nHeadKv) * x.headDim)
    modifies out
    ensures Stored(x, exp, ps, out[..], (kv + 1) * (x.nHead / x.nHeadKv) * x.headDim)
  {
    hide IsExp, FullOut, HeadOut, HeadAt, KvHead, Stored, IsHead;
    var groupSize := x.nHead / x.nHeadKv;
    GroupStart(x, kv);
    ghost var h0 := kv * groupSize;
    for g := 0 to groupSize
      invariant Stored(x, exp, ps, out[..], (h0 + g) * x.headDim)
    {
      var h := kv * groupSize + g;
      GroupMember(x, kv, g);
      var acc := TwoPassHead(x, exp, h, kv, ps, true);
      SameHead(x, exp, ps, h, kv, acc[..]);
      StoreHead(x, exp, ps, h, acc[..], out);
    }
  }

  /** Query heads group by group, each group against its own key/value head. With fewer query heads than
      key/value heads a group is empty, no head is visited, and the output stays zero. */
  method GqaAttention(x: Inputs, exp: real -> real, nEmbd: nat, ps: seq<nat>) returns (out: array<real>)
    requires IsExp(exp) && x.Ok() && InCache(x, ps)
    ensures out.Length == nEmbd
    ensures forall i | 0 <= i < nEmbd :: out[i] == if x.nHead < x.nHeadKv then 0.0 else FullOut(x, exp, ps, i)
  {
    hide IsExp, FullOut;
    out := new real[nEmbd](_ => 0.0);
    for kv := 0 to x.nHeadKv
      invariant fresh(out) && out.Length == nEmbd
      invariant Stored(x, exp, ps, out[..], kv * (x.nHead / x.nHeadKv) * x.headDim)
    {
      GroupHeads(x, exp, ps, kv, out);
    }
    if x.nHead < x.nHeadKv { NoGroups(x); } else { BehindGroups(x, exp, ps); }
  }

  lemma SameHead(x: Inputs, exp: real -> real, ps: seq<nat>, h: nat, kv: nat, head: seq<real>)
    requires x.Ok() && InCache(x, ps) && h < x.nHead && kv == KvHead(x, h) < x.nHeadKv && |head| == x.headDim
    requires forall d | 0 <= d < x.headDim :: head[d] == HeadOut(x, exp, h, kv, ps, d)
    ensures IsHead(x, exp, ps, h, head)
  {
  }

  lemma NoGroups(x: Inputs)
    requires x.nHead < x.nHeadKv
    ensures x.nHeadKv * (x.nHead / x.nHeadKv) * x.headDim == 0
  {
    ModUnique(x.nHead, x.nHeadKv, 0, x.nHead);
  }

  lemma GroupStart(x: Inputs, kv: nat)
    requires kv < x.nHeadKv
    ensures var g := x.nHead / x.nHeadKv; (kv + 1) * g == kv * g + g <= x.nHead
  {
    MulStep(kv, x.nHeadKv, x.nHead / x.nHeadKv);
  }

  /** The query heads of a group are those that use its key/value head. */
  lemma GroupMember(x: Inputs, kv: nat, g: nat)
    requires x.nHeadKv > 0 && g < x.nHead / x.nHeadKv
    ensures KvHead(x, kv * (x.nHead / x.nHeadKv) + g) == kv
  {
    ModUnique(kv * (x.nHead / x.nHeadKv) + g, x.nHead / x.nHeadKv, kv, g);
  }

  /** Behind the last group are only query heads whose key/value head does not exist. */
  lemma BehindGroups(x: Inputs, exp: real -> real, ps: seq<nat>)
    requires x.Ok() && InCache(x, ps) && x.nHead >= x.nHeadKv
    ensures forall i: nat :: i >= x.nHeadKv * (x.nHead / x.nHeadKv) * x.headDim ==> FullOut(x, exp, ps, i) == 0.0
  {
    hide FullOut;
    forall i: nat | i >= x.nHeadKv * (x.nHead / x.nHeadKv) * x.headDim ensures FullOut(x, exp, ps, i) == 0.0 {
      if i < x.nHead * x.headDim {
        RowOf(i, x.nHead, x.headDim);
        DivBelow(i, x.nHeadKv * (x.nHead / x.nHeadKv), x.headDim);
        NoKvHead(x, exp, ps, i);
      } else {
        BehindHeads(x, exp, ps);
      }
    }
  }

  lemma NoKvHead(x: Inputs, exp: real -> real, ps: seq<nat>, i: nat)
    requires x.Ok() && InCache(x, ps) && x.nHead >= x.nHeadKv && i < x.nHead * x.headDim && x.headDim > 0
    requires i / x.headDim >= x.nHeadKv * (x.nHead / x.nHeadKv)
    ensures FullOut(x, exp, ps, i) == 0.0
  {
    hide HeadAt;
    DivBelow(i / x.headDim, x.nHeadKv, GroupSize(x));
  }

  /** On head counts for which the loops over query heads stay inside the cache, these two agree, and the grouped
      loop agrees with them exactly if `nHeadKv` divides `nHead` or every output happens to be zero. */
  method AllAgree(x: Inputs, exp: real -> real, nEmbd: nat) returns (a: seq<real>, b: seq<real>, c: seq<real>)
    requires IsExp(exp) && x.Ok() && HeadsFit(x)
    ensures a == b && |a| == |c| == nEmbd
    ensures forall i | 0 <= i < nEmbd :: a[i] == FullOut(x, exp, Range(0, |x.keys|), i)
    ensures a == c <==> x.nHead % x.nHeadKv == 0 || forall i | 0 <= i < nEmbd :: a[i] == 0.0
  {
    hide IsExp, FullOut, HeadsFit;
    HeadsFitIff(x);
    var mha := MultiHeadAttention(x, exp, nEmbd);
    a := mha[..];
    var flash := FlashAttention(x, exp, nEmbd, 0, |x.keys|, true);
    b := flash[..];
    var gqa := GqaAttention(x, exp, nEmbd, VisiblePositions(|x.keys|, 0, 0));
    c := gqa[..];
    if x.nHead < x.nHeadKv {
      if x.nHead % x.nHeadKv == 0 { NoHeads(x, exp, Range(0, |x.keys|)); }
      if a == c { assert forall i | 0 <= i < nEmbd :: a[i] == c[i]; }
    }
  }

  lemma NoHeads(x: Inputs, exp: real -> real, ps: seq<nat>)
    requires x.Ok() && InCache(x, ps) && x.nHead < x.nHeadKv && x.nHead % x.nHeadKv == 0
    ensures forall i: nat :: FullOut(x, exp, ps, i) == 0.0
  {
    ModUnique(x.nHead, x.nHeadKv, 0, x.nHead);
  }

  /** With fewer query heads than key/value heads the loops do differ: values that are all one have mean one. */
  lemma GroupedSkipsHeads(x: Inputs, exp: real -> real, ps: seq<nat>, i: nat)
    requires IsExp(exp) && x.Ok() && InCache(x, ps) && ps != [] && x.nHead < x.nHeadKv && i < x.nHead * x.headDim
    requires forall p, j | 0 <= p < |x.values| && 0 <= j < |x.values[p]| :: x.values[p][j] == 1.0
    ensures FullOut(x, exp, ps, i) == 1.0
  {
    hide IsExp, HeadAt, FullOut;
    RowOf(i, x.nHead, x.headDim);
    var h, d := i / x.headDim, i % x.headDim;
    OwnHead(x, h);
    assert i == h * x.headDim + d;
    FullOutAt(x, exp, ps, h, d);
    HeadOfOnes(x, exp, ps, h, d);
  }

  lemma OwnHead(x: Inputs, h: nat)
    requires h < x.nHead < x.nHeadKv
    ensures KvHead(x, h) == h < x.nHeadKv
  {
    ModUnique(x.nHead, x.nHeadKv, 0, x.nHead);
  }

  lemma HeadOfOnes(x: Inputs, exp: real -> real, ps: seq<nat>, h: nat, d: nat)
    requires IsExp(exp) && x.Ok() && InCache(x, ps) && ps != [] && h < x.nHead && d < x.headDim
    requires KvHead(x, h) < x.nHeadKv
    requires forall p, j | 0 <= p < |x.values| && 0 <= j < |x.values[p]| :: x.values[p][j] == 1.0
    ensures HeadAt(x, exp, ps, h, d) == 1.0
  {
    hide IsExp, AttnOut, Scores, Column;
    ColumnOfOnes(x, KvHead(x, h), ps, d);
    MeanOfOnes(exp, Scores(x, h, KvHead(x, h), ps), Column(x, KvHead(x, h), ps, d));
  }

  lemma ColumnOfOnes(x: Inputs, kv: nat, ps: seq<nat>, d: nat)
    requires x.Ok() && kv < x.nHeadKv && d < x.headDim && InCache(x, ps)
    requires forall p, j | 0 <= p < |x.values| && 0 <= j < |x.values[p]| :: x.values[p][j] == 1.0
    ensures forall i | 0 <= i < |ps| :: Column(x, kv, ps, d)[i] == 1.0
  {
    MulStep(kv, x.nHeadKv, x.headDim);
  }

  lemma MeanOfOnes(exp: real -> real, s: seq<real>, v: seq<real>)
    requires IsExp(exp) && |v| == |s| && s != [] && forall i | 0 <= i < |v| :: v[i] == 1.0
    ensures AttnOut(exp, s, v) == 1.0
  {
    hide IsExp, Weights, Weighted;
    WeightsPositive(exp, s, |s|, 0.0);
    WeightedOnes(exp, s, v, |s|);
    SelfQuotient(Weights(exp, s, |s|, 0.0));
  }

  lemma SelfQuotient(w: real)
    requires w > 0.0
    ensures w / w == 1.0
  {
  }

  lemma {:induction false} WeightedOnes(exp: real -> real, s: seq<real>, v: seq<real>, n: nat)
    requires |v| == |s| && n <= |s| && forall i | 0 <= i < |v| :: v[i] == 1.0
    ensures Weighted(exp, s, v, n, 0.0) == Weights(exp, s, n, 0.0)
  {
    if n > 0 { WeightedOnes(exp, s, v, n - 1); }
  }
}
