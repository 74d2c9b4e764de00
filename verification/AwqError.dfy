/** The arithmetic of AWQ groups over the reals: the quantiser and its rounding, the half-step bound,
    and the clip search with its own way of rounding. */
module AwqError {
  import opened Arith
  import opened AwqPacking

  /** The largest finite 32-bit float. */
  const F32_MAX: real := 340282346638528859811704183484516925440.0

  /** It has 24 bits set, the lowest of them worth 2 to the power 104. */
  lemma LargestFloat()
    ensures F32_MAX == 16777215.0 * 20282409603651670423947251286016.0
  {
  }

  predicate InF32(x: real) { -F32_MAX <= x <= F32_MAX }

  // ---------- rounding ----------

  /** Nearest integer, halves away from zero. */
  function Round(x: real): int {
    if x >= 0.0 then (x + 0.5).Floor else -(0.5 - x).Floor
  }

  function Abs(x: real): (r: real)
    ensures r >= 0.0 && (r == x || r == -x)
  {
    if x >= 0.0 then x else -x
  }

  function Dist(y: real, n: int): real { Abs(n as real - y) }

  lemma RoundNearest(x: real)
    ensures Dist(x, Round(x)) <= 0.5
    ensures forall m: int :: Dist(x, Round(x)) <= Dist(x, m)
  {
    var n := Round(x);
    forall m: int ensures Dist(x, n) <= Dist(x, m) {
      if m < n { assert m <= n - 1; } else if n < m { assert n + 1 <= m; }
    }
  }

  function ClampInt(n: int, lo: int, hi: int): int {
    if n < lo then lo else if n > hi then hi else n
  }

  function Clamp(x: real, lo: real, hi: real): real {
    if x < lo then lo else if x > hi then hi else x
  }

  /** `n` is as close to `y` as any integer from 0 to `top`. */
  ghost predicate NearestIn(n: int, y: real, top: nat) {
    0 <= n <= top && forall m | 0 <= m <= top :: Dist(y, n) <= Dist(y, m)
  }

  /** Rounding with an integer offset, halves falling either way, and clamping afterwards. */
  lemma ShiftRoundClamp(y: real, off: int, top: nat)
    ensures NearestIn(ClampInt(Round(y + off as real), off, off + top) - off, y, top)
  {
    var n := Round(y + off as real);
    RoundNearest(y + off as real);
    assert forall m: int :: Dist(y, m) == Dist(y + off as real, m + off);
    assert Dist(y, n - off) <= 0.5;
    var c := ClampInt(n, off, off + top) - off;
    forall m | 0 <= m <= top ensures Dist(y, c) <= Dist(y, m) {
      assert Dist(y + off as real, n) <= Dist(y + off as real, m + off);
    }
  }

  /** Clamping first and rounding afterwards. */
  lemma ClampThenRound(y: real, top: nat)
    ensures NearestIn(Round(Clamp(y, 0.0, top as real)), y, top)
  {
    RoundNearest(Clamp(y, 0.0, top as real));
    assert Dist(0.0, 0) == 0.0 && Dist(top as real, top) == 0.0;
  }

  /** Between 0 and `top` the nearest integer is at most a half away. */
  lemma HalfAway(n: int, y: real, top: nat)
    requires NearestIn(n, y, top) && 0.0 <= y <= top as real
    ensures Dist(y, n) <= 0.5
  {
    RoundNearest(y);
    assert 0 <= Round(y) <= top;
  }

  // ---------- one group ----------

  function Range(bits: nat): (r: nat)
    ensures r > 0
  {
    MaxVal(bits) - MinVal(bits)
  }

  /** `bits` bits hold all integers from `-2^(bits - 1)` to `2^(bits - 1) - 1`. */
  lemma Levels(bits: nat)
    requires SupportedBits(bits)
    ensures MinVal(bits) + Pow2(bits - 1) == 0 && MaxVal(bits) + 1 == Pow2(bits - 1)
    ensures Range(bits) + 1 == Pow2(bits)
  {
    assert Pow2(1) == 2 && Pow2(2) == 4 && Pow2(3) == 8 && Pow2(4) == 16;
    assert Pow2(5) == 32 && Pow2(6) == 64 && Pow2(7) == 128 && Pow2(8) == 256;
  }

  function Delta(lo: real, hi: real, bits: nat): real { (hi - lo) / Range(bits) as real }

  function Zero(lo: real, delta: real, bits: nat): real { lo - MinVal(bits) as real * delta }

  /** The stored integer of a scaled weight. */
  function Code(bits: nat, w: real, delta: real, zero: real): (q: int)
    ensures MinVal(bits) <= q <= MaxVal(bits)
  {
    if delta > 0.0 then ClampInt(Round((w - zero) / delta), MinVal(bits), MaxVal(bits)) else 0
  }

  /** The scaled weight that the stored integer stands for. */
  function Restored(bits: nat, w: real, delta: real, zero: real): real {
    Code(bits, w, delta, zero) as real * delta + zero
  }

  lemma MulMono(a: real, b: real, c: real)
    requires a <= b && 0.0 <= c
    ensures a * c <= b * c
  {
  }

  lemma MulStrict(a: real, b: real, c: real)
    requires a < b && 0.0 < c
    ensures a * c < b * c
  {
  }

  lemma DeltaRange(lo: real, hi: real, bits: nat)
    ensures Delta(lo, hi, bits) * Range(bits) as real == hi - lo
    ensures lo <= hi ==> Delta(lo, hi, bits) >= 0.0
    ensures lo < hi ==> Delta(lo, hi, bits) > 0.0
    ensures Delta(lo, hi, bits) == 0.0 ==> lo == hi
  {
  }

  /** A weight measured in steps above the low end of its group. */
  lemma Steps(bits: nat, w: real, lo: real, delta: real)
    requires delta > 0.0
    ensures (w - Zero(lo, delta, bits)) / delta == (w - lo) / delta + MinVal(bits) as real
    ensures (w - lo) / delta * delta == w - lo
  {
    var m := MinVal(bits) as real;
    assert (w - (lo - m * delta)) / delta == (w - lo) / delta + m * delta / delta;
  }

  /** The step count of the stored integer is the closest that the range has. */
  lemma CodeNearest(bits: nat, w: real, lo: real, delta: real)
    requires delta > 0.0
    ensures var n, y := Code(bits, w, delta, Zero(lo, delta, bits)) - MinVal(bits), (w - lo) / delta;
      NearestIn(n, y, Range(bits)) && Restored(bits, w, delta, Zero(lo, delta, bits)) - w == (n as real - y) * delta
  {
    hide Round, NearestIn;
    var zero := Zero(lo, delta, bits);
    CodeOf(bits, w, delta, zero);
    Steps(bits, w, lo, delta);
    ShiftRoundClamp((w - lo) / delta, MinVal(bits), Range(bits));
    hide Code;
    Gather(Code(bits, w, delta, zero) as real, MinVal(bits) as real, (w - lo) / delta, delta, w, lo);
  }

  lemma CodeOf(bits: nat, w: real, delta: real, zero: real)
    requires delta > 0.0
    ensures Code(bits, w, delta, zero) == ClampInt(Round((w - zero) / delta), MinVal(bits), MinVal(bits) + Range(bits))
  {
  }

  lemma Gather(q: real, m: real, y: real, delta: real, w: real, lo: real)
    requires y * delta == w - lo
    ensures q * delta + (lo - m * delta) - w == (q - m - y) * delta
  {
    assert (q - m - y) * delta == q * delta - m * delta - y * delta;
  }

  /** Inside its bounds a weight is restored up to half a step; equal bounds restore it exactly. */
  lemma HalfStep(bits: nat, w: real, lo: real, hi: real)
    requires lo <= w <= hi
    ensures var delta := Delta(lo, hi, bits);
      delta >= 0.0 && Abs(Restored(bits, w, delta, Zero(lo, delta, bits)) - w) <= delta / 2.0
  {
    var delta := Delta(lo, hi, bits);
    DeltaRange(lo, hi, bits);
    if delta > 0.0 {
      HalfStepNarrow(bits, w, lo, hi, delta);
    }
  }

  lemma HalfStepNarrow(bits: nat, w: real, lo: real, hi: real, delta: real)
    requires lo <= w <= hi && delta > 0.0 && delta * Range(bits) as real == hi - lo
    ensures Abs(Restored(bits, w, delta, Zero(lo, delta, bits)) - w) <= delta / 2.0
  {
    hide Restored, Code, Zero, NearestIn;
    CodeNearest(bits, w, lo, delta);
    var n, y := Code(bits, w, delta, Zero(lo, delta, bits)) - MinVal(bits), (w - lo) / delta;
    InSteps(w, lo, hi, delta, Range(bits));
    HalfAway(n, y, Range(bits));
    ScaledHalf(n as real - y, delta, Restored(bits, w, delta, Zero(lo, delta, bits)) - w);
  }

  lemma ScaledHalf(x: real, delta: real, e: real)
    requires e == x * delta && Abs(x) <= 0.5 && delta > 0.0
    ensures Abs(e) <= delta / 2.0
  {
    assert -0.5 <= x <= 0.5;
    MulMono(x, 0.5, delta);
    assert x * delta <= 0.5 * delta;
    MulMono(-0.5, x, delta);
    assert -0.5 * delta <= x * delta;
    assert e <= 0.5 * delta && e >= -0.5 * delta;
    assert 0.5 * delta == delta / 2.0;
  }

  lemma DivBound(a: real, b: real, c: real)
    requires c > 0.0
    ensures a <= b * c ==> a / c <= b
    ensures b * c <= a ==> b <= a / c
    ensures a < b * c ==> a / c < b
    ensures b * c < a ==> b < a / c
  {
    assert a / c * c == a;
    if b < a / c {
      MulStrict(b, a / c, c);
    } else if a / c < b {
      MulStrict(a / c, b, c);
    }
  }

  lemma InSteps(w: real, lo: real, hi: real, delta: real, top: nat)
    requires delta > 0.0 && delta * top as real == hi - lo
    ensures lo <= w ==> 0.0 <= (w - lo) / delta
    ensures w <= hi ==> (w - lo) / delta <= top as real
    ensures w < lo ==> (w - lo) / delta < 0.0
    ensures hi < w ==> top as real < (w - lo) / delta
  {
    DivBound(w - lo, 0.0, delta);
    DivBound(w - lo, top as real, delta);
  }

  /** Halves go away from zero. */
  lemma RoundHalves(n: nat)
    ensures Round(n as real + 0.5) == n + 1 && Round(-(n as real) - 0.5) + n + 1 == 0
  {
  }

  lemma RoundWhole(n: int)
    ensures Round(n as real) == n
  {
  }

  /** The ends of the bounds are stored as the least and the greatest integer. */
  lemma EndCodes(bits: nat, lo: real, hi: real)
    requires lo < hi
    ensures var delta := Delta(lo, hi, bits);
      && Code(bits, lo, delta, Zero(lo, delta, bits)) == MinVal(bits)
      && Code(bits, hi, delta, Zero(lo, delta, bits)) == MaxVal(bits)
  {
    hide Round, Zero, Delta;
    var delta := Delta(lo, hi, bits);
    DeltaRange(lo, hi, bits);
    Steps(bits, lo, lo, delta);
    Steps(bits, hi, lo, delta);
    WholeSteps(lo, hi, delta, Range(bits));
    RoundWhole(MinVal(bits));
    RoundWhole(MaxVal(bits));
  }

  lemma WholeSteps(lo: real, hi: real, delta: real, top: nat)
    requires delta > 0.0 && delta * top as real == hi - lo
    ensures (lo - lo) / delta == 0.0 && (hi - lo) / delta == top as real
  {
  }

  // ---------- squared error of a group ----------

  function Square(x: real): (r: real)
    ensures r >= 0.0
  {
    x * x
  }

  function GroupError(group: seq<real>, bits: nat, delta: real, zero: real): (e: real)
    ensures e >= 0.0
  {
    if group == [] then 0.0
    else
      var n := |group| - 1;
      GroupError(group[..n], bits, delta, zero) + Square(group[n] - Restored(bits, group[n], delta, zero))
  }

  /** The error that the quantiser makes on a group whose bounds are set to `lo` and `hi`. */
  function BoundsError(group: seq<real>, bits: nat, lo: real, hi: real): real {
    GroupError(group, bits, Delta(lo, hi, bits), Zero(lo, Delta(lo, hi, bits), bits))
  }

  /** The value that the clip search restores: clamped to the bounds, then rounded in steps from the low end. */
  function SearchRestored(bits: nat, w: real, lo: real, hi: real, delta: real): real
    requires delta > 0.0
  {
    ClampInt(Round((Clamp(w, lo, hi) - lo) / delta), 0, Range(bits)) as real * delta + lo
  }

  /** Both ways of rounding are equally far from the weight, also where they break a tie differently. */
  lemma SearchErrorSame(bits: nat, w: real, lo: real, hi: real)
    requires Delta(lo, hi, bits) > 0.0
    ensures var delta := Delta(lo, hi, bits);
      Square(w - SearchRestored(bits, w, lo, hi, delta)) == Square(w - Restored(bits, w, delta, Zero(lo, delta, bits)))
  {
    hide *;
    var delta := Delta(lo, hi, bits);
    DeltaRange(lo, hi, bits);
    SearchNearest(bits, w, lo, hi, delta);
    CodeNearest(bits, w, lo, delta);
    var n, y := Code(bits, w, delta, Zero(lo, delta, bits)) - MinVal(bits), (w - lo) / delta;
    var m := ClampInt(Round((Clamp(w, lo, hi) - lo) / delta), 0, Range(bits));
    BothNearest(n, m, y, Range(bits));
    SameSquare(w, Restored(bits, w, delta, Zero(lo, delta, bits)), SearchRestored(bits, w, lo, hi, delta),
               n as real - y, m as real - y, delta);
  }

  lemma BothNearest(n: int, m: int, y: real, top: nat)
    requires NearestIn(n, y, top) && NearestIn(m, y, top)
    ensures Abs(n as real - y) == Abs(m as real - y)
  {
    assert Dist(y, n) == Dist(y, m);
  }

  lemma SearchNearest(bits: nat, w: real, lo: real, hi: real, delta: real)
    requires delta > 0.0 && delta * Range(bits) as real == hi - lo
    ensures var m, y := ClampInt(Round((Clamp(w, lo, hi) - lo) / delta), 0, Range(bits)), (w - lo) / delta;
      NearestIn(m, y, Range(bits)) && SearchRestored(bits, w, lo, hi, delta) - w == (m as real - y) * delta
  {
    var top, y := Range(bits), (w - lo) / delta;
    assert y * delta == w - lo;
    ClampInSteps(w, lo, hi, delta, top);
    ClampThenRound(y, top);
    hide Round, Clamp;
    var m := ClampInt(Round((Clamp(w, lo, hi) - lo) / delta), 0, top);
    Gather(m as real, 0.0, y, delta, w, lo);
  }

  lemma ClampInSteps(w: real, lo: real, hi: real, delta: real, top: nat)
    requires delta > 0.0 && delta * top as real == hi - lo && top > 0
    ensures (Clamp(w, lo, hi) - lo) / delta == Clamp((w - lo) / delta, 0.0, top as real)
  {
    InSteps(w, lo, hi, delta, top);
    assert (hi - lo) / delta == top as real;
    assert (lo - lo) / delta == 0.0;
  }

  lemma SameSquare(w: real, r: real, r': real, a: real, b: real, delta: real)
    requires r - w == a * delta && r' - w == b * delta && Abs(a) == Abs(b)
    ensures Square(w - r') == Square(w - r)
  {
    if a == b {
      assert r == r';
    } else {
      assert b == -a;
      assert b * delta == -(a * delta);
      assert w - r' == -(w - r);
    }
  }

  // ---------- extremes ----------

  function MinOf(s: seq<real>): (m: real)
    requires s != []
    ensures m in s && forall x | x in s :: m <= x
  {
    var n := |s| - 1;
    if n == 0 then s[0]
    else
      assert forall x | x in s :: x in s[..n] || x == s[n];
      var rest := MinOf(s[..n]);
      if s[n] < rest then s[n] else rest
  }

  function MaxOf(s: seq<real>): (m: real)
    requires s != []
    ensures m in s && forall x | x in s :: x <= m
  {
    var n := |s| - 1;
    if n == 0 then s[0]
    else
      assert forall x | x in s :: x in s[..n] || x == s[n];
      var rest := MaxOf(s[..n]);
      if s[n] > rest then s[n] else rest
  }

  method FindMinMax(s: seq<real>) returns (wMin: real, wMax: real)
    requires forall x | x in s :: InF32(x)
    ensures s == [] ==> wMin == F32_MAX && wMax == -F32_MAX
    ensures s != [] ==> wMin == MinOf(s) && wMax == MaxOf(s)
  {
    wMin, wMax := F32_MAX, -F32_MAX;
    for i := 0 to |s|
      invariant i == 0 ==> wMin == F32_MAX && wMax == -F32_MAX
      invariant i > 0 ==> wMin == MinOf(s[..i]) && wMax == MaxOf(s[..i])
    {
      assert s[..i + 1][..i] == s[..i] && s[i] in s;
      if s[i] < wMin { wMin := s[i]; }
      if s[i] > wMax { wMax := s[i]; }
    }
    assert s[..|s|] == s;
  }

  // ---------- the clip search ----------

  /** The bounds tried at a step: the group's own, narrowed about their centre by a ratio from 0.5 to 1. */
  function Candidate(wMin: real, wMax: real, step: nat, steps: nat): (real, real)
    requires steps > 0
  {
    Around(wMin, wMax, 0.5 + 0.5 * step as real / steps as real)
  }

  function Around(wMin: real, wMax: real, ratio: real): (real, real) {
    var center, half := (wMin + wMax) / 2.0, (wMax - wMin) / 2.0 * ratio;
    (center - half, center + half)
  }

  lemma CandidateBounds(wMin: real, wMax: real, step: nat, steps: nat)
    requires steps > 0 && step <= steps && wMin <= wMax
    ensures var (lo, hi) := Candidate(wMin, wMax, step, steps);
      && wMin <= lo <= hi <= wMax && (wMin < wMax ==> lo < hi) && (step == steps ==> lo == wMin && hi == wMax)
      && lo + hi == wMin + wMax
      && (hi - lo) * (2.0 * steps as real) == (wMax - wMin) * (steps + step) as real
  {
    CandidateWidth(wMin, wMax, step, steps);
    hide Around;
    var ratio := 0.5 + 0.5 * step as real / steps as real;
    RatioBounds(0.5 * step as real, 0.5 * steps as real, steps as real);
    assert step == steps ==> ratio == 1.0;
    Narrowed(wMin, wMax, ratio);
  }

  /** Candidates have the centre of the bounds, and grow from half their width in equal steps. */
  lemma CandidateWidth(wMin: real, wMax: real, step: nat, steps: nat)
    requires steps > 0
    ensures var (lo, hi) := Candidate(wMin, wMax, step, steps);
      lo + hi == wMin + wMax && (hi - lo) * (2.0 * steps as real) == (wMax - wMin) * (steps + step) as real
  {
    var w, n, k := wMax - wMin, steps as real, step as real;
    var part := 0.5 * k / n;
    assert part * n == 0.5 * k;
    assert (w * (0.5 + part)) * (2.0 * n) == w * (n + 2.0 * (part * n));
    assert (steps + step) as real == n + k;
    assert w / 2.0 * (0.5 + part) == w * (0.5 + part) / 2.0;
  }

  lemma Narrowed(wMin: real, wMax: real, ratio: real)
    requires wMin <= wMax && 0.5 <= ratio <= 1.0
    ensures var (lo, hi) := Around(wMin, wMax, ratio);
      wMin <= lo <= hi <= wMax && (wMin < wMax ==> lo < hi) && (ratio == 1.0 ==> lo == wMin && hi == wMax)
  {
    var h, center := (wMax - wMin) / 2.0, (wMin + wMax) / 2.0;
    Halves(h, ratio);
    var half := h * ratio;
    assert wMin <= center - half && center - half <= center + half && center + half <= wMax;
    assert half == (wMax - wMin) / 2.0 * ratio;
  }

  lemma Halves(h: real, ratio: real)
    requires 0.0 <= h && 0.5 <= ratio <= 1.0
    ensures h / 2.0 <= h * ratio <= h
    ensures ratio == 1.0 ==> h * ratio == h
  {
  }

  lemma RatioBounds(a: real, b: real, c: real)
    requires 0.0 <= a <= b && b == 0.5 * c && c > 0.0
    ensures 0.0 <= a / c <= 0.5 && (a == b ==> a / c == 0.5)
  {
    DivBound(a, 0.5, c);
    DivBound(a, 0.0, c);
  }

  method SearchError(group: seq<real>, bits: nat, lo: real, hi: real, delta: real) returns (mse: real)
    requires delta > 0.0 && delta == Delta(lo, hi, bits)
    ensures mse == BoundsError(group, bits, lo, hi)
  {
    hide Delta, Restored, SearchRestored, Square;
    mse := 0.0;
    for i := 0 to |group|
      invariant mse == BoundsError(group[..i], bits, lo, hi)
    {
      var w := group[i];
      var err := w - SearchRestored(bits, w, lo, hi, delta);
      mse := mse + Square(err);
      SearchErrorSame(bits, w, lo, hi);
      assert group[..i + 1][..i] == group[..i];
    }
    assert group[..|group|] == group;
  }

  /** The group's bounds narrower than this are not searched. */
  const MIN_WIDTH: real := 0.0000000001

  /** The error `e` is no worse than that of a candidate, unless the candidate's is past every finite float. */
  ghost predicate NoWorse(e: real, group: seq<real>, bits: nat, cand: (real, real)) {
    e <= BoundsError(group, bits, cand.0, cand.1) || BoundsError(group, bits, cand.0, cand.1) >= F32_MAX
  }

  /** No candidate of a search with `steps` steps is better than the error `e`. */
  ghost predicate BestOfSearch(e: real, group: seq<real>, bits: nat, steps: nat)
    requires group != [] && steps > 0
  {
    forall step | 0 <= step <= steps :: NoWorse(e, group, bits, Candidate(MinOf(group), MaxOf(group), step, steps))
  }

  /** The bounds found never make the quantiser's error larger than the group's own bounds do, and of the
      candidates none is better. */
  method FindOptimalClip(group: seq<real>, bits: nat, steps: nat) returns (lo: real, hi: real)
    requires steps > 0 && forall x | x in group :: InF32(x)
    ensures group == [] ==> lo == hi == 0.0
    ensures group != [] ==> MinOf(group) <= lo <= hi <= MaxOf(group)
    ensures group != [] ==>
      BoundsError(group, bits, lo, hi) <= BoundsError(group, bits, MinOf(group), MaxOf(group))
    ensures group != [] && MaxOf(group) - MinOf(group) >= 0.0000000001 ==>
      BestOfSearch(BoundsError(group, bits, lo, hi), group, bits, steps)
  {
    if group == [] { return 0.0, 0.0; }
    hide BoundsError, Candidate, GroupError, Delta;
    var wMin, wMax := FindMinMax(group);
    if Abs(wMax - wMin) < MIN_WIDTH { return wMin, wMax; }
    var bestMse, bestMin, bestMax := F32_MAX, wMin, wMax;
    for step := 0 to steps + 1
      invariant wMin <= bestMin <= bestMax <= wMax
      invariant bestMse <= F32_MAX
      invariant bestMse < F32_MAX ==> bestMse == BoundsError(group, bits, bestMin, bestMax)
      invariant bestMse == F32_MAX ==> bestMin == wMin && bestMax == wMax
      invariant forall s | 0 <= s < step :: Beaten(group, bits, bestMse, Candidate(wMin, wMax, s, steps))
    {
      var (clipMin, clipMax) := Candidate(wMin, wMax, step, steps);
      CandidateBounds(wMin, wMax, step, steps);
      DeltaRange(clipMin, clipMax, bits);
      var delta := Delta(clipMin, clipMax, bits);
      if delta <= 0.0 { continue; }
      var mse := SearchError(group, bits, clipMin, clipMax, delta);
      if mse < bestMse {
        bestMse, bestMin, bestMax := mse, clipMin, clipMax;
      }
    }
    CandidateBounds(wMin, wMax, steps, steps);
    assert Beaten(group, bits, bestMse, Candidate(wMin, wMax, steps, steps));
    lo, hi := bestMin, bestMax;
  }

  ghost predicate Beaten(group: seq<real>, bits: nat, mse: real, cand: (real, real)) {
    mse <= BoundsError(group, bits, cand.0, cand.1)
  }
}
