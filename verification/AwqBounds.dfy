/** What a quantised matrix is worth: how far its weights are from the originals, that the clip search
    does not hurt, and that the fused product uses the same weights as the plain one. */
module AwqBounds {
  import opened Arith
  import opened AwqError
  import opened AwqPacking
  import opened AwqQuantize

  // ---------- distance from the original ----------

  lemma UnfoldScaled(q: QuantizedWeight, weights: seq<real>, row: nat, col: nat)
    requires |weights| == q.shape.dOut * q.shape.dIn && row < q.shape.dOut && col < q.shape.dIn
    ensures ScaledWeightAt(q, weights, row, col) == WeightAt(weights, q.shape, row, col) * AwqAt(q, col)
  {
  }

  lemma Unscale(r: real, ws: real, w: real, s: real, e: real)
    requires s > 0.0 && Abs(r - ws) <= e && ws == w * s
    ensures Abs(r / s - w) <= e / s
  {
    QuotientOf(ws, w, s);
    DivSubtract(r, ws, s);
    DivAbs(r - ws, e, s);
  }

  lemma QuotientOf(ws: real, w: real, s: real)
    requires s > 0.0 && ws == w * s
    ensures ws / s == w
  {
  }

  lemma DivSubtract(a: real, b: real, s: real)
    requires s > 0.0
    ensures (a - b) / s == a / s - b / s
  {
  }

  lemma DivAbs(a: real, e: real, s: real)
    requires s > 0.0 && -e <= a <= e
    ensures -(e / s) <= a / s <= e / s
  {
    assert e / s * s == e;
    DivBound(a, e / s, s);
    DivBound(a, -(e / s), s);
  }

  lemma MemberAt(scaled: seq<real>, sh: Shape, row: nat, g: nat, j: nat)
    requires sh.groupSize > 0 && |scaled| == sh.dOut * sh.dIn && row < sh.dOut && g < GroupsPerRow(sh)
    requires j < |Members(scaled, sh, row, g)|
    ensures g * sh.groupSize + j < sh.dIn && (g * sh.groupSize + j) / sh.groupSize == g
    ensures Members(scaled, sh, row, g)[j] == WeightAt(scaled, sh, row, g * sh.groupSize + j)
  {
    hide GroupsPerRow;
    ModUnique(g * sh.groupSize + j, sh.groupSize, g, j);
  }

  /** The parameters of the group at a row and column, and the weight's place between the bounds. */
  lemma GroupOfWeight(q: QuantizedWeight, weights: seq<real>, awq: seq<real>, cfg: Config, row: nat, col: nat)
    requires Quantized(q, weights, awq, cfg) && row < q.shape.dOut && col < q.shape.dIn
    ensures |weights| == q.shape.dOut * q.shape.dIn && 0 < q.shape.dIn <= |awq| && q.shape.groupSize > 0
    ensures col / q.shape.groupSize < GroupsPerRow(q.shape)
    ensures var group := Members(ScaledMatrix(weights, awq, q.shape.dIn), q.shape, row, col / q.shape.groupSize);
      ScaledWeightAt(q, weights, row, col) in group
      && GoodParameters(group, cfg.bits, ScaleAt(q, row, col), ZeroAt(q, row, col), Searches(cfg), cfg.clipSteps)
  {
    hide PackedUpTo, Codes, GoodParameters, Members, GroupsPerRow, ScaledMatrix;
    var sh, scaled := q.shape, ScaledMatrix(weights, awq, q.shape.dIn);
    ScaledAt(q, weights, awq, cfg, row, col);
    MemberOf(scaled, sh, row, col);
    assert GroupGood(scaled, sh, q.scales, q.zeros, cfg, row, col / sh.groupSize);
  }

  lemma RestoredIs(q: QuantizedWeight, weights: seq<real>, awq: seq<real>, cfg: Config, row: nat, col: nat)
    requires Quantized(q, weights, awq, cfg) && row < q.shape.dOut && col < q.shape.dIn
    ensures |weights| == q.shape.dOut * q.shape.dIn && q.shape.groupSize > 0
    ensures RestoredAt(q, row, col) ==
      Restored(cfg.bits, ScaledWeightAt(q, weights, row, col), ScaleAt(q, row, col), ZeroAt(q, row, col))
  {
    hide Quantized, ScaleAt, ZeroAt, AwqAt, WeightAt, ReadQuantized, Code;
    ReadsBack(q, weights, awq, cfg, row, col);
  }

  /** Without clipping a weight comes back at most half a group step, over its channel scale, away. */
  lemma HalfStepBound(q: QuantizedWeight, weights: seq<real>, awq: seq<real>, cfg: Config, row: nat, col: nat)
    requires Quantized(q, weights, awq, cfg) && row < q.shape.dOut && col < q.shape.dIn
    requires !Searches(cfg) && AwqAt(q, col) > 0.0
    ensures |weights| == q.shape.dOut * q.shape.dIn && q.shape.groupSize > 0
    ensures Abs(DequantAt(q, row, col) - WeightAt(weights, q.shape, row, col))
      <= ScaleAt(q, row, col) / 2.0 / AwqAt(q, col)
  {
    hide Quantized, ScaleAt, ZeroAt, AwqAt, WeightAt, RestoredAt, Restored, GoodParameters, Members, ScaledMatrix,
         Abs, ScaledWeightAt, Searches, GroupsPerRow;
    GroupOfWeight(q, weights, awq, cfg, row, col);
    RestoredIs(q, weights, awq, cfg, row, col);
    var group := Members(ScaledMatrix(weights, awq, q.shape.dIn), q.shape, row, col / q.shape.groupSize);
    UnfoldScaled(q, weights, row, col);
    var w := ScaledWeightAt(q, weights, row, col);
    HalfStepIn(group, cfg.bits, w, ScaleAt(q, row, col), ZeroAt(q, row, col), cfg.clipSteps);
    Unscale(Restored(cfg.bits, w, ScaleAt(q, row, col), ZeroAt(q, row, col)), w,
            WeightAt(weights, q.shape, row, col), AwqAt(q, col), ScaleAt(q, row, col) / 2.0);
  }

  /** A weight times the scale of its channel. */
  ghost function Scaled(weights: seq<real>, awq: seq<real>, sh: Shape, row: nat, col: nat): real
    requires |weights| == sh.dOut * sh.dIn && row < sh.dOut && col < sh.dIn <= |awq|
  {
    IndexFits(sh, row, col);
    weights[row * sh.dIn + col] * awq[col]
  }

  /** No scaled weight of the same group is smaller, or larger. */
  ghost predicate IsLeast(weights: seq<real>, awq: seq<real>, sh: Shape, row: nat, col: nat)
    requires |weights| == sh.dOut * sh.dIn && row < sh.dOut && col < sh.dIn <= |awq| && sh.groupSize > 0
  {
    forall c: nat | c < sh.dIn && c / sh.groupSize == col / sh.groupSize ::
      Scaled(weights, awq, sh, row, col) <= Scaled(weights, awq, sh, row, c)
  }

  ghost predicate IsGreatest(weights: seq<real>, awq: seq<real>, sh: Shape, row: nat, col: nat)
    requires |weights| == sh.dOut * sh.dIn && row < sh.dOut && col < sh.dIn <= |awq| && sh.groupSize > 0
  {
    forall c: nat | c < sh.dIn && c / sh.groupSize == col / sh.groupSize ::
      Scaled(weights, awq, sh, row, c) <= Scaled(weights, awq, sh, row, col)
  }

  /** In numbers: with `b` bits and no clipping a weight comes back at most `(hi - lo) / (2 * (2^b - 1))`, over its
      channel scale, away, if the scaled weights of its group lie between `lo` and `hi`. */
  lemma LevelBound(q: QuantizedWeight, weights: seq<real>, awq: seq<real>, cfg: Config, row: nat, col: nat,
                   lo: real, hi: real)
    requires Quantized(q, weights, awq, cfg) && row < q.shape.dOut && col < q.shape.dIn && |awq| >= q.shape.dIn
    requires |weights| == q.shape.dOut * q.shape.dIn && q.shape.groupSize > 0 && awq[col] > 0.0
    requires !(cfg.clip && cfg.clipSteps > 0)
    requires forall c: nat | c < q.shape.dIn && c / q.shape.groupSize == col / q.shape.groupSize ::
      lo <= Scaled(weights, awq, q.shape, row, c) <= hi
    ensures Pow2(cfg.bits) > 1
    ensures Abs(DequantAt(q, row, col) - WeightAt(weights, q.shape, row, col))
      <= (hi - lo) / (2 * (Pow2(cfg.bits) - 1)) as real / awq[col]
  {
    hide Quantized, ScaleAt, ZeroAt, WeightAt, DequantAt, GoodParameters, Members, ScaledMatrix, Abs, GroupsPerRow,
         Pow2, Scaled;
    LevelsPositive(q, weights, awq, cfg);
    HalfStepBound(q, weights, awq, cfg, row, col);
    GroupBetween(q, weights, awq, cfg, row, col, lo, hi);
    StepIsDelta(q, weights, awq, cfg, row, col);
    Levels(cfg.bits);
    var group := Members(ScaledMatrix(weights, awq, q.shape.dIn), q.shape, row, col / q.shape.groupSize);
    NarrowStep(MinOf(group), MaxOf(group), lo, hi, Range(cfg.bits) as real, ScaleAt(q, row, col), awq[col]);
    assert (2 * (Pow2(cfg.bits) - 1)) as real == 2.0 * Range(cfg.bits) as real;
  }

  lemma LevelsPositive(q: QuantizedWeight, weights: seq<real>, awq: seq<real>, cfg: Config)
    requires Quantized(q, weights, awq, cfg)
    ensures SupportedBits(cfg.bits) && q.awqScales == awq && Pow2(cfg.bits) > 1
  {
    hide GroupsGood, PackedUpTo;
    Levels(cfg.bits);
  }

  lemma NarrowStep(a: real, b: real, lo: real, hi: real, n: real, step: real, s: real)
    requires lo <= a && b <= hi && n > 0.0 && s > 0.0 && step == (b - a) / n
    ensures step / 2.0 / s <= (hi - lo) / (2.0 * n) / s
  {
    assert step * n == b - a;
    var wide := (hi - lo) / (2.0 * n);
    assert wide * (2.0 * n) == hi - lo;
    DivBound(b - a, 2.0 * wide, n);
    assert step / 2.0 <= wide;
    assert wide / s * s == wide;
    DivBound(step / 2.0, wide / s, s);
  }

  /** Without clipping the stored step is that of the group's own extremes. */
  lemma StepIsDelta(q: QuantizedWeight, weights: seq<real>, awq: seq<real>, cfg: Config, row: nat, col: nat)
    requires Quantized(q, weights, awq, cfg) && row < q.shape.dOut && col < q.shape.dIn && !Searches(cfg)
    ensures |weights| == q.shape.dOut * q.shape.dIn && 0 < q.shape.dIn <= |awq| && q.shape.groupSize > 0
    ensures col / q.shape.groupSize < GroupsPerRow(q.shape)
    ensures var group := Members(ScaledMatrix(weights, awq, q.shape.dIn), q.shape, row, col / q.shape.groupSize);
      && ScaledWeightAt(q, weights, row, col) in group
      && ScaleAt(q, row, col) == Delta(MinOf(group), MaxOf(group), cfg.bits)
      && ZeroAt(q, row, col) == Zero(MinOf(group), ScaleAt(q, row, col), cfg.bits)
  {
    hide Quantized, ScaleAt, ZeroAt, Members, ScaledMatrix, GroupsPerRow, ScaledWeightAt, GroupError, BoundsError;
    GroupOfWeight(q, weights, awq, cfg, row, col);
  }

  /** What holds of the scaled weights of all columns of a group holds of its members. */
  lemma GroupBetween(q: QuantizedWeight, weights: seq<real>, awq: seq<real>, cfg: Config, row: nat, col: nat,
                     lo: real, hi: real)
    requires Quantized(q, weights, awq, cfg) && row < q.shape.dOut && col < q.shape.dIn && |awq| >= q.shape.dIn
    requires |weights| == q.shape.dOut * q.shape.dIn && q.shape.groupSize > 0
    requires forall c: nat | c < q.shape.dIn && c / q.shape.groupSize == col / q.shape.groupSize ::
      lo <= Scaled(weights, awq, q.shape, row, c) <= hi
    ensures col / q.shape.groupSize < GroupsPerRow(q.shape)
    ensures var group := Members(ScaledMatrix(weights, awq, q.shape.dIn), q.shape, row, col / q.shape.groupSize);
      lo <= MinOf(group) && MaxOf(group) <= hi
  {
    hide Quantized, Members, ScaledMatrix, GroupsPerRow, WeightAt, Scaled;
    GroupHolds(q.shape, col);
    var group := Members(ScaledMatrix(weights, awq, q.shape.dIn), q.shape, row, col / q.shape.groupSize);
    forall x | x in group ensures lo <= x <= hi {
      var j :| 0 <= j < |group| && group[j] == x;
      var c := MemberColumn(q, weights, awq, cfg, row, col / q.shape.groupSize, j);
    }
  }

  lemma MemberColumn(q: QuantizedWeight, weights: seq<real>, awq: seq<real>, cfg: Config, row: nat, g: nat, j: nat)
    returns (c: nat)
    requires Quantized(q, weights, awq, cfg) && row < q.shape.dOut && |awq| >= q.shape.dIn > 0
    requires |weights| == q.shape.dOut * q.shape.dIn && q.shape.groupSize > 0 && g < GroupsPerRow(q.shape)
    requires j < |Members(ScaledMatrix(weights, awq, q.shape.dIn), q.shape, row, g)|
    ensures c < q.shape.dIn && c / q.shape.groupSize == g
    ensures Members(ScaledMatrix(weights, awq, q.shape.dIn), q.shape, row, g)[j]
      == Scaled(weights, awq, q.shape, row, c)
  {
    hide Quantized, Members, ScaledMatrix, GroupsPerRow, WeightAt;
    c := g * q.shape.groupSize + j;
    MemberAt(ScaledMatrix(weights, awq, q.shape.dIn), q.shape, row, g, j);
    ScaledAt(q, weights, awq, cfg, row, c);
    ScaledIs(q, weights, awq, cfg, row, c);
  }

  lemma ScaledIs(q: QuantizedWeight, weights: seq<real>, awq: seq<real>, cfg: Config, row: nat, col: nat)
    requires Quantized(q, weights, awq, cfg) && row < q.shape.dOut && col < q.shape.dIn && |awq| >= q.shape.dIn
    ensures |weights| == q.shape.dOut * q.shape.dIn
    ensures ScaledWeightAt(q, weights, row, col) == Scaled(weights, awq, q.shape, row, col)
  {
    hide Quantized;
    QuantizedShape(q, weights, awq, cfg);
    ScaledOf(q, weights, awq, row, col);
  }

  lemma QuantizedShape(q: QuantizedWeight, weights: seq<real>, awq: seq<real>, cfg: Config)
    requires Quantized(q, weights, awq, cfg)
    ensures |weights| == q.shape.dOut * q.shape.dIn && q.awqScales == awq
  {
    hide GroupsGood, PackedUpTo;
  }

  lemma ScaledOf(q: QuantizedWeight, weights: seq<real>, awq: seq<real>, row: nat, col: nat)
    requires |weights| == q.shape.dOut * q.shape.dIn && q.awqScales == awq
    requires row < q.shape.dOut && col < q.shape.dIn <= |awq|
    ensures ScaledWeightAt(q, weights, row, col) == Scaled(weights, awq, q.shape, row, col)
  {
  }

  /** In a group that is not constant, without clipping, the least weight is stored as `-2^(b - 1)` and the greatest
      as `2^(b - 1) - 1`. */
  lemma ExtremesStored(q: QuantizedWeight, weights: seq<real>, awq: seq<real>, cfg: Config, row: nat, col: nat,
                       other: nat)
    requires Quantized(q, weights, awq, cfg) && row < q.shape.dOut && col < q.shape.dIn && |awq| >= q.shape.dIn
    requires |weights| == q.shape.dOut * q.shape.dIn && q.shape.groupSize > 0 && !(cfg.clip && cfg.clipSteps > 0)
    requires other < q.shape.dIn && other / q.shape.groupSize == col / q.shape.groupSize
    requires Scaled(weights, awq, q.shape, row, other) != Scaled(weights, awq, q.shape, row, col)
    ensures cfg.bits > 0
    ensures IsLeast(weights, awq, q.shape, row, col) ==> ReadQuantized(q, row, col) + Pow2(cfg.bits - 1) == 0
    ensures IsGreatest(weights, awq, q.shape, row, col) ==> ReadQuantized(q, row, col) + 1 == Pow2(cfg.bits - 1)
  {
    hide Quantized, ScaleAt, ZeroAt, WeightAt, Members, ScaledMatrix, GroupsPerRow, Pow2, Code, Delta, Zero,
         ReadQuantized, ScaledWeightAt, Scaled, IsLeast, IsGreatest, Range, MinVal, MaxVal;
    LevelsPositive(q, weights, awq, cfg);
    Levels(cfg.bits);
    StepIsDelta(q, weights, awq, cfg, row, col);
    StepIsDelta(q, weights, awq, cfg, row, other);
    ReadsBack(q, weights, awq, cfg, row, col);
    ScaledIs(q, weights, awq, cfg, row, col);
    ScaledIs(q, weights, awq, cfg, row, other);
    var group := Members(ScaledMatrix(weights, awq, q.shape.dIn), q.shape, row, col / q.shape.groupSize);
    EndCodes(cfg.bits, MinOf(group), MaxOf(group));
    if IsLeast(weights, awq, q.shape, row, col) { LeastOfGroup(q, weights, awq, cfg, row, col); }
    if IsGreatest(weights, awq, q.shape, row, col) { GreatestOfGroup(q, weights, awq, cfg, row, col); }
  }

  lemma LeastOfGroup(q: QuantizedWeight, weights: seq<real>, awq: seq<real>, cfg: Config, row: nat, col: nat)
    requires Quantized(q, weights, awq, cfg) && row < q.shape.dOut && col < q.shape.dIn && |awq| >= q.shape.dIn
    requires |weights| == q.shape.dOut * q.shape.dIn && q.shape.groupSize > 0
    requires IsLeast(weights, awq, q.shape, row, col)
    ensures col / q.shape.groupSize < GroupsPerRow(q.shape)
    ensures MinOf(Members(ScaledMatrix(weights, awq, q.shape.dIn), q.shape, row, col / q.shape.groupSize))
      == Scaled(weights, awq, q.shape, row, col)
  {
    hide Quantized, Members, ScaledMatrix, GroupsPerRow, WeightAt, GoodParameters, ScaledWeightAt, Scaled;
    GroupOfWeight(q, weights, awq, cfg, row, col);
    ScaledIs(q, weights, awq, cfg, row, col);
    var group := Members(ScaledMatrix(weights, awq, q.shape.dIn), q.shape, row, col / q.shape.groupSize);
    var j :| 0 <= j < |group| && group[j] == MinOf(group);
    var c := MemberColumn(q, weights, awq, cfg, row, col / q.shape.groupSize, j);
  }

  lemma GreatestOfGroup(q: QuantizedWeight, weights: seq<real>, awq: seq<real>, cfg: Config, row: nat, col: nat)
    requires Quantized(q, weights, awq, cfg) && row < q.shape.dOut && col < q.shape.dIn && |awq| >= q.shape.dIn
    requires |weights| == q.shape.dOut * q.shape.dIn && q.shape.groupSize > 0
    requires IsGreatest(weights, awq, q.shape, row, col)
    ensures col / q.shape.groupSize < GroupsPerRow(q.shape)
    ensures MaxOf(Members(ScaledMatrix(weights, awq, q.shape.dIn), q.shape, row, col / q.shape.groupSize))
      == Scaled(weights, awq, q.shape, row, col)
  {
    hide Quantized, Members, ScaledMatrix, GroupsPerRow, WeightAt, GoodParameters, ScaledWeightAt, Scaled;
    GroupOfWeight(q, weights, awq, cfg, row, col);
    ScaledIs(q, weights, awq, cfg, row, col);
    var group := Members(ScaledMatrix(weights, awq, q.shape.dIn), q.shape, row, col / q.shape.groupSize);
    var j :| 0 <= j < |group| && group[j] == MaxOf(group);
    var c := MemberColumn(q, weights, awq, cfg, row, col / q.shape.groupSize, j);
  }

  lemma HalfStepIn(group: seq<real>, bits: nat, w: real, delta: real, zero: real, steps: nat)
    requires w in group && GoodParameters(group, bits, delta, zero, false, steps)
    ensures Abs(Restored(bits, w, delta, zero) - w) <= delta / 2.0
  {
    hide Restored, GroupError, Delta, Zero, Abs;
    assert MinOf(group) <= w <= MaxOf(group);
    HalfStep(bits, w, MinOf(group), MaxOf(group));
  }

  lemma {:induction false} NoErrorExact(group: seq<real>, bits: nat, delta: real, zero: real, i: nat)
    requires GroupError(group, bits, delta, zero) == 0.0 && i < |group|
    ensures Restored(bits, group[i], delta, zero) == group[i]
  {
    hide Restored;
    var n := |group| - 1;
    var d := group[n] - Restored(bits, group[n], delta, zero);
    if i == n {
      if d != 0.0 { SquarePositive(d); }
    } else {
      NoErrorExact(group[..n], bits, delta, zero, i);
    }
  }

  lemma SquarePositive(d: real)
    requires d != 0.0
    ensures Square(d) > 0.0
  {
    ProductPositive(d, d, Square(d));
  }

  lemma ProductPositive(a: real, b: real, p: real)
    requires ((a > 0.0 && b > 0.0) || (a < 0.0 && b < 0.0)) && p == a * b
    ensures p > 0.0
  {
  }

  lemma {:induction false} ConstantError(group: seq<real>, bits: nat, w: real)
    requires forall x | x in group :: x == w
    ensures BoundsError(group, bits, w, w) == 0.0
  {
    if group != [] {
      var n := |group| - 1;
      assert group[n] in group && forall x | x in group[..n] :: x in group;
      ConstantError(group[..n], bits, w);
      HalfStep(bits, w, w, w);
    }
  }

  /** The weights of a constant group come back exactly, with or without clipping. */
  lemma ConstantGroupExact(q: QuantizedWeight, weights: seq<real>, awq: seq<real>, cfg: Config, row: nat, col: nat)
    requires Quantized(q, weights, awq, cfg) && row < q.shape.dOut && col < q.shape.dIn && AwqAt(q, col) != 0.0
    requires |weights| == q.shape.dOut * q.shape.dIn && 0 < q.shape.dIn <= |awq| && q.shape.groupSize > 0
    requires col / q.shape.groupSize < GroupsPerRow(q.shape)
    requires forall x, y | x in Members(ScaledMatrix(weights, awq, q.shape.dIn), q.shape, row, col / q.shape.groupSize)
      && y in Members(ScaledMatrix(weights, awq, q.shape.dIn), q.shape, row, col / q.shape.groupSize) :: x == y
    ensures DequantAt(q, row, col) == WeightAt(weights, q.shape, row, col)
  {
    hide Quantized, ScaleAt, ZeroAt, AwqAt, WeightAt, RestoredAt, Restored, GroupError, BoundsError, Delta, Zero,
         Members, ScaledMatrix, BestOfSearch, GroupsPerRow;
    GroupOfWeight(q, weights, awq, cfg, row, col);
    RestoredIs(q, weights, awq, cfg, row, col);
    var group := Members(ScaledMatrix(weights, awq, q.shape.dIn), q.shape, row, col / q.shape.groupSize);
    assert MinOf(group) == MaxOf(group);
    ConstantError(group, cfg.bits, MinOf(group));
    var i :| 0 <= i < |group| && group[i] == ScaledWeightAt(q, weights, row, col);
    NoErrorExact(group, cfg.bits, ScaleAt(q, row, col), ZeroAt(q, row, col), i);
    assert WeightAt(weights, q.shape, row, col) * AwqAt(q, col) / AwqAt(q, col) == WeightAt(weights, q.shape, row, col);
  }

  /** Without clipping the weights of a constant group are stored as 0. */
  lemma ConstantGroupZero(q: QuantizedWeight, weights: seq<real>, awq: seq<real>, cfg: Config, row: nat, col: nat)
    requires Quantized(q, weights, awq, cfg) && row < q.shape.dOut && col < q.shape.dIn && |awq| >= q.shape.dIn
    requires |weights| == q.shape.dOut * q.shape.dIn && q.shape.groupSize > 0 && !Searches(cfg)
    requires IsLeast(weights, awq, q.shape, row, col) && IsGreatest(weights, awq, q.shape, row, col)
    ensures ReadQuantized(q, row, col) == 0
  {
    hide Quantized, ScaleAt, ZeroAt, WeightAt, Members, ScaledMatrix, GroupsPerRow, Delta, Zero, ReadQuantized,
         ScaledWeightAt, Scaled, IsLeast, IsGreatest;
    StepIsDelta(q, weights, awq, cfg, row, col);
    ReadsBack(q, weights, awq, cfg, row, col);
    LeastOfGroup(q, weights, awq, cfg, row, col);
    GreatestOfGroup(q, weights, awq, cfg, row, col);
    var w := Scaled(weights, awq, q.shape, row, col);
    NoWidth(w, cfg.bits);
  }

  lemma NoWidth(w: real, bits: nat)
    ensures Delta(w, w, bits) == 0.0
  {
  }

  // ---------- clipping ----------

  /** The squared error of the stored integers of columns `from .. to` of a row, in scaled space. */
  ghost function StoredError(q: QuantizedWeight, weights: seq<real>, row: nat, from: nat, to: nat): real
    requires |weights| == q.shape.dOut * q.shape.dIn && row < q.shape.dOut && to <= q.shape.dIn && q.shape.groupSize > 0
  {
    if to <= from then 0.0
    else
      var c := to - 1;
      StoredError(q, weights, row, from, c) + StoredTerm(q, weights, row, c)
  }

  ghost function StoredTerm(q: QuantizedWeight, weights: seq<real>, row: nat, c: nat): real
    requires |weights| == q.shape.dOut * q.shape.dIn && row < q.shape.dOut && c < q.shape.dIn && q.shape.groupSize > 0
  {
    Square(ScaledWeightAt(q, weights, row, c) - RestoredAt(q, row, c))
  }

  lemma StoredTermIs(q: QuantizedWeight, weights: seq<real>, awq: seq<real>, cfg: Config, group: seq<real>,
                     row: nat, g: nat, j: nat, delta: real, zero: real)
    requires q.shape.groupSize > 0 && |weights| == q.shape.dOut * q.shape.dIn && 0 < q.shape.dIn <= |awq|
    requires row < q.shape.dOut && g < GroupsPerRow(q.shape) && j < |group|
    requires group == Members(ScaledMatrix(weights, awq, q.shape.dIn), q.shape, row, g)
    requires delta == Get(q.scales, row * GroupsPerRow(q.shape) + g, 1.0)
    requires zero == Get(q.zeros, row * GroupsPerRow(q.shape) + g, 0.0)
    requires Quantized(q, weights, awq, cfg)
    ensures g * q.shape.groupSize + j < q.shape.dIn
    ensures StoredTerm(q, weights, row, g * q.shape.groupSize + j)
      == Square(group[j] - Restored(cfg.bits, group[j], delta, zero))
  {
    hide Quantized, Members, ScaledMatrix, GroupsPerRow, WeightAt, ScaledWeightAt, RestoredAt, Restored, Square;
    var c := g * q.shape.groupSize + j;
    MemberAt(ScaledMatrix(weights, awq, q.shape.dIn), q.shape, row, g, j);
    RestoredIs(q, weights, awq, cfg, row, c);
    ScaledAt(q, weights, awq, cfg, row, c);
  }

  /** The stored error is the error of the quantiser on the members of the group. */
  lemma {:induction false} StoredIsGroupError(q: QuantizedWeight, weights: seq<real>, awq: seq<real>, cfg: Config,
                                              group: seq<real>, row: nat, g: nat, n: nat, delta: real, zero: real)
    requires q.shape.groupSize > 0 && |weights| == q.shape.dOut * q.shape.dIn && 0 < q.shape.dIn <= |awq|
    requires row < q.shape.dOut && g < GroupsPerRow(q.shape) && n <= |group|
    requires group == Members(ScaledMatrix(weights, awq, q.shape.dIn), q.shape, row, g)
    requires delta == Get(q.scales, row * GroupsPerRow(q.shape) + g, 1.0)
    requires zero == Get(q.zeros, row * GroupsPerRow(q.shape) + g, 0.0)
    requires Quantized(q, weights, awq, cfg)
    ensures g * q.shape.groupSize + n <= q.shape.dIn
    ensures StoredError(q, weights, row, g * q.shape.groupSize, g * q.shape.groupSize + n)
      == GroupError(group[..n], cfg.bits, delta, zero)
  {
    hide Quantized, Members, ScaledMatrix, Code, GroupsPerRow, WeightAt, ReadQuantized, Square, Restored, StoredTerm;
    if n == 0 {
      GroupInRow(q.shape, g);
    } else {
      StoredIsGroupError(q, weights, awq, cfg, group, row, g, n - 1, delta, zero);
      StoredTermIs(q, weights, awq, cfg, group, row, g, n - 1, delta, zero);
      assert group[..n][..n - 1] == group[..n - 1] && group[..n][n - 1] == group[n - 1];
    }
  }

  /** The columns of a group. */
  function GroupEnd(sh: Shape, g: nat): nat { Min(g * sh.groupSize + sh.groupSize, sh.dIn) }

  /** With the clip search the stored error of a group is never larger than without it. */
  lemma ClippingNeverHurts(q: QuantizedWeight, q0: QuantizedWeight, weights: seq<real>, awq: seq<real>,
                           cfg: Config, cfg0: Config, row: nat, g: nat)
    requires Quantized(q, weights, awq, cfg) && Quantized(q0, weights, awq, cfg0) && q0.shape == q.shape
    requires !Searches(cfg0) && row < q.shape.dOut && q.shape.groupSize > 0 && g < GroupsPerRow(q.shape)
    ensures |weights| == q.shape.dOut * q.shape.dIn && GroupEnd(q.shape, g) <= q.shape.dIn
    ensures StoredError(q, weights, row, g * q.shape.groupSize, GroupEnd(q.shape, g))
      <= StoredError(q0, weights, row, g * q.shape.groupSize, GroupEnd(q.shape, g))
  {
    hide Members, GoodParameters, StoredError, GroupError, GroupsPerRow, PackedUpTo, Codes, ScaledMatrix;
    var sh, group := q.shape, GroupOfRow(q, weights, awq, cfg, row, g);
    ParametersAt(q, weights, awq, cfg, row, g);
    ParametersAt(q0, weights, awq, cfg0, row, g);
    var gi := row * GroupsPerRow(sh) + g;
    StoredIsGroupError(q, weights, awq, cfg, group, row, g, |group|, Get(q.scales, gi, 1.0), Get(q.zeros, gi, 0.0));
    StoredIsGroupError(q0, weights, awq, cfg0, group, row, g, |group|, Get(q0.scales, gi, 1.0), Get(q0.zeros, gi, 0.0));
    assert group[..|group|] == group;
    NoWorseThanBounds(group, cfg, cfg0, Get(q.scales, gi, 1.0), Get(q.zeros, gi, 0.0),
                      Get(q0.scales, gi, 1.0), Get(q0.zeros, gi, 0.0));
  }

  ghost function GroupOfRow(q: QuantizedWeight, weights: seq<real>, awq: seq<real>, cfg: Config,
                            row: nat, g: nat): (group: seq<real>)
    requires Quantized(q, weights, awq, cfg) && row < q.shape.dOut && g < GroupsPerRow(q.shape)
    ensures weights != [] && 0 < q.shape.dIn <= |awq| && |group| == GroupEnd(q.shape, g) - g * q.shape.groupSize
    ensures group == Members(ScaledMatrix(weights, awq, q.shape.dIn), q.shape, row, g)
  {
    GroupInRow(q.shape, g);
    IndexFits(q.shape, row, 0);
    Members(ScaledMatrix(weights, awq, q.shape.dIn), q.shape, row, g)
  }

  lemma ParametersAt(q: QuantizedWeight, weights: seq<real>, awq: seq<real>, cfg: Config, row: nat, g: nat)
    requires Quantized(q, weights, awq, cfg) && row < q.shape.dOut && g < GroupsPerRow(q.shape)
    ensures var gi := row * GroupsPerRow(q.shape) + g;
      GoodParameters(GroupOfRow(q, weights, awq, cfg, row, g), cfg.bits, Get(q.scales, gi, 1.0), Get(q.zeros, gi, 0.0),
                     Searches(cfg), cfg.clipSteps)
  {
    hide GoodParameters, PackedUpTo, Codes, GroupsPerRow, ScaledMatrix, Members;
    assert GroupOfRow(q, weights, awq, cfg, row, g) != [];
    assert GroupGood(ScaledMatrix(weights, awq, q.shape.dIn), q.shape, q.scales, q.zeros, cfg, row, g);
  }

  lemma NoWorseThanBounds(group: seq<real>, cfg: Config, cfg0: Config,
                          delta: real, zero: real, delta0: real, zero0: real)
    requires group != [] && cfg.bits == cfg0.bits && !Searches(cfg0)
    requires GoodParameters(group, cfg.bits, delta, zero, Searches(cfg), cfg.clipSteps)
    requires GoodParameters(group, cfg0.bits, delta0, zero0, false, cfg0.clipSteps)
    ensures GroupError(group, cfg.bits, delta, zero) <= GroupError(group, cfg.bits, delta0, zero0)
  {
    hide GroupError, Delta, Zero, BestOfSearch;
  }

  // ---------- using the weights ----------

  /** No channel scale is zero; in floating point a zero would give infinities. */
  predicate CanDequantize(q: QuantizedWeight) {
    q.shape.groupSize > 0 && forall j | 0 <= j < |q.awqScales| :: q.awqScales[j] != 0.0
  }

  /** All weights in row order. */
  ghost function Dequantized(q: QuantizedWeight): (r: seq<real>)
    requires CanDequantize(q)
    ensures |r| == q.shape.dOut * q.shape.dIn
  {
    seq(q.shape.dOut * q.shape.dIn, k requires 0 <= k < q.shape.dOut * q.shape.dIn =>
      (RowOf(k, q.shape.dOut, q.shape.dIn); DequantAt(q, k / q.shape.dIn, k % q.shape.dIn)))
  }

  lemma DequantizedAt(q: QuantizedWeight, row: nat, col: nat)
    requires CanDequantize(q) && row < q.shape.dOut && col < q.shape.dIn
    ensures row * q.shape.dIn + col < |Dequantized(q)|
    ensures Dequantized(q)[row * q.shape.dIn + col] == DequantAt(q, row, col)
  {
    hide DequantAt;
    IndexFits(q.shape, row, col);
    ModUnique(row * q.shape.dIn + col, q.shape.dIn, row, col);
  }

  method DequantOne(q: QuantizedWeight, groupsPerRow: nat, row: nat, col: nat) returns (w: real)
    requires CanDequantize(q) && groupsPerRow == GroupsPerRow(q.shape)
    ensures w == DequantAt(q, row, col)
  {
    hide GroupsPerRow, ReadQuantized;
    var groupIdx := row * groupsPerRow + col / q.shape.groupSize;
    var scale, zero, awqS := Get(q.scales, groupIdx, 1.0), Get(q.zeros, groupIdx, 0.0), Get(q.awqScales, col, 1.0);
    var qVal := ReadQuantized(q, row, col) as real;
    w := (qVal * scale + zero) / awqS;
  }

  ghost predicate DoneUpTo(s: seq<real>, d: seq<real>, n: nat) {
    |s| == |d| && n <= |d| && s[..n] == d[..n]
  }

  lemma DoneAll(s: seq<real>, d: seq<real>)
    requires DoneUpTo(s, d, |d|)
    ensures s == d
  {
    assert s[..|d|] == s && d[..|d|] == d;
  }

  method Dequantize(q: QuantizedWeight) returns (output: seq<real>)
    requires CanDequantize(q)
    ensures output == Dequantized(q)
  {
    hide DequantAt, GroupsPerRow, Dequantized, DoneUpTo;
    ghost var d := Dequantized(q);
    output := seq(q.shape.dOut * q.shape.dIn, _ => 0.0);
    var groupsPerRow := GroupsPerRow(q.shape);
    Started(output, d);
    for row := 0 to q.shape.dOut
      invariant DoneUpTo(output, d, row * q.shape.dIn)
    {
      output := DequantRow(q, groupsPerRow, row, row * q.shape.dIn, output);
      NextRow(row, q.shape.dIn);
    }
    DoneAll(output, d);
  }

  lemma Started(s: seq<real>, d: seq<real>)
    requires |s| == |d|
    ensures DoneUpTo(s, d, 0)
  {
  }

  method DequantRow(q: QuantizedWeight, groupsPerRow: nat, row: nat, base: nat, before: seq<real>)
    returns (output: seq<real>)
    requires CanDequantize(q) && groupsPerRow == GroupsPerRow(q.shape)
    requires row < q.shape.dOut && base == row * q.shape.dIn
    requires DoneUpTo(before, Dequantized(q), base)
    ensures DoneUpTo(output, Dequantized(q), base + q.shape.dIn)
  {
    hide DequantAt, GroupsPerRow, Dequantized;
    ghost var d := Dequantized(q);
    output := before;
    for col := 0 to q.shape.dIn
      invariant DoneUpTo(output, d, base + col)
    {
      var w := DequantOne(q, groupsPerRow, row, col);
      DequantizedAt(q, row, col);
      NextElement(output, d, base + col, w);
      output := output[base + col := w];
    }
  }

  lemma NextElement(s: seq<real>, d: seq<real>, k: nat, w: real)
    requires |s| == |d| && k < |d| && s[..k] == d[..k] && w == d[k]
    ensures s[k := w][..k + 1] == d[..k + 1]
  {
  }

  /** The fused product is the product with the dequantised matrix. */
  method MatVec(q: QuantizedWeight, input: seq<real>) returns (output: seq<real>)
    requires CanDequantize(q) && |input| == q.shape.dIn
    ensures |output| == q.shape.dOut
    ensures forall row | 0 <= row < |output| :: RowProduct(q, input, row, output[row])
  {
    hide DequantAt, GroupsPerRow, Dequantized, RowProduct;
    output := seq(q.shape.dOut, _ => 0.0);
    var groupsPerRow := GroupsPerRow(q.shape);
    for row := 0 to q.shape.dOut
      invariant |output| == q.shape.dOut
      invariant forall r | 0 <= r < row :: RowProduct(q, input, r, output[r])
    {
      var sum := MatVecRow(q, input, groupsPerRow, row);
      output := output[row := sum];
    }
  }

  /** `sum` is the dot product of a row of the dequantised matrix with the input. */
  ghost predicate RowProduct(q: QuantizedWeight, input: seq<real>, row: nat, sum: real)
    requires CanDequantize(q) && |input| == q.shape.dIn && row < q.shape.dOut
  {
    MulStep(row, q.shape.dOut, q.shape.dIn);
    sum == Dot(Dequantized(q), row * q.shape.dIn, input, 0, q.shape.dIn)
  }

  method MatVecRow(q: QuantizedWeight, input: seq<real>, groupsPerRow: nat, row: nat) returns (sum: real)
    requires CanDequantize(q) && |input| == q.shape.dIn && row < q.shape.dOut && groupsPerRow == GroupsPerRow(q.shape)
    ensures RowProduct(q, input, row, sum)
  {
    hide DequantAt, GroupsPerRow, Dequantized;
    MulStep(row, q.shape.dOut, q.shape.dIn);
    sum := 0.0;
    for col := 0 to q.shape.dIn
      invariant sum == Dot(Dequantized(q), row * q.shape.dIn, input, 0, col)
    {
      var w := DequantOne(q, groupsPerRow, row, col);
      DequantizedAt(q, row, col);
      sum := sum + w * input[col];
    }
  }
}
