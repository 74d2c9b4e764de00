/** AWQ quantisation of a weight matrix, over the reals: channel scales, group parameters, packing,
    and the two ways of using the result. */
module AwqQuantize {
  import opened Arith
  import opened AwqError
  import opened AwqPacking
  import opened Wrappers

  datatype Config = Config(bits: nat, groupSize: nat, alpha: real, clip: bool, clipSteps: nat)

  datatype ActivationStats = ActivationStats(channelMaxAbs: seq<real>, samples: nat)

  datatype Shape = Shape(dOut: nat, dIn: nat, bits: nat, groupSize: nat)

  datatype QuantizedWeight = QuantizedWeight(
    data: seq<bv8>, scales: seq<real>, zeros: seq<real>, awqScales: seq<real>, shape: Shape)

  datatype Error = ShapeMismatch | UnsupportedBits

  // ---------- channel scales ----------

  /** All that is assumed of the power function. */
  ghost predicate IsPow(pow: (real, real) -> real) {
    forall m, a | m > 0.0 :: pow(m, a) > 0.0
  }

  function RawScale(m: real, alpha: real, pow: (real, real) -> real): real {
    if m > 0.0 then pow(m, alpha) else 1.0
  }

  function Sum(s: seq<real>): real {
    if s == [] then 0.0 else Sum(s[..|s| - 1]) + s[|s| - 1]
  }

  lemma {:induction false} SumPositive(s: seq<real>)
    requires forall i | 0 <= i < |s| :: s[i] > 0.0
    ensures Sum(s) >= 0.0 && (s != [] ==> Sum(s) > 0.0)
  {
    if s != [] { SumPositive(s[..|s| - 1]); }
  }

  lemma {:induction false} SumDivided(s: seq<real>, t: seq<real>, c: real)
    requires c != 0.0 && |t| == |s| && forall i | 0 <= i < |s| :: t[i] == s[i] / c
    ensures Sum(t) == Sum(s) / c
  {
    if s == [] {
    } else {
      var n := |s| - 1;
      SumDivided(s[..n], t[..n], c);
      assert Sum(s[..n]) / c + s[n] / c == (Sum(s[..n]) + s[n]) / c;
    }
  }

  function RawScales(stats: ActivationStats, alpha: real, pow: (real, real) -> real): seq<real> {
    seq(|stats.channelMaxAbs|, j requires 0 <= j < |stats.channelMaxAbs| =>
      RawScale(stats.channelMaxAbs[j], alpha, pow))
  }

  /** The raw scales divided by their mean. */
  ghost function ScalesOf(stats: ActivationStats, alpha: real, pow: (real, real) -> real): (r: seq<real>)
    ensures |r| == |stats.channelMaxAbs|
  {
    var raw := RawScales(stats, alpha, pow);
    if raw == [] || Sum(raw) <= 0.0 then raw
    else seq(|raw|, j requires 0 <= j < |raw| => raw[j] / (Sum(raw) / |raw| as real))
  }

  /** Scales are positive and their mean is 1. */
  lemma ScalesNormalised(stats: ActivationStats, alpha: real, pow: (real, real) -> real)
    requires IsPow(pow)
    ensures var s := ScalesOf(stats, alpha, pow);
      Sum(s) == |s| as real && forall j | 0 <= j < |s| :: s[j] > 0.0
  {
    var raw, s := RawScales(stats, alpha, pow), ScalesOf(stats, alpha, pow);
    SumPositive(raw);
    if raw != [] {
      var mean := Sum(raw) / |raw| as real;
      DivBound(Sum(raw), 0.0, |raw| as real);
      SumDivided(raw, s, mean);
      Ratio(Sum(raw), |raw| as real);
      forall j | 0 <= j < |s| ensures s[j] > 0.0 { DivBound(raw[j], 0.0, mean); }
    }
  }

  /** Two scales are to each other as the powers of the largest activations of their channels, where a channel
      without activation counts as 1. */
  lemma ScalesProportional(stats: ActivationStats, alpha: real, pow: (real, real) -> real, i: nat, j: nat)
    requires IsPow(pow) && i < |stats.channelMaxAbs| && j < |stats.channelMaxAbs|
    ensures |ScalesOf(stats, alpha, pow)| == |stats.channelMaxAbs|
    ensures var s, m := ScalesOf(stats, alpha, pow), stats.channelMaxAbs;
      s[i] * (if m[j] > 0.0 then pow(m[j], alpha) else 1.0) == s[j] * (if m[i] > 0.0 then pow(m[i], alpha) else 1.0)
  {
    var raw := RawScales(stats, alpha, pow);
    SumPositive(raw);
    DivBound(Sum(raw), 0.0, |raw| as real);
    CrossProduct(raw[i], raw[j], Sum(raw) / |raw| as real);
  }

  lemma CrossProduct(a: real, b: real, c: real)
    requires c > 0.0
    ensures a / c * b == b / c * a
  {
    assert a / c * c == a && b / c * c == b;
  }

  lemma Ratio(a: real, n: real)
    requires a > 0.0 && n > 0.0 && a / n > 0.0
    ensures a / (a / n) == n
  {
    assert a / n * n == a;
  }

  method ComputeScales(stats: ActivationStats, alpha: real, pow: (real, real) -> real) returns (scales: seq<real>)
    ensures scales == ScalesOf(stats, alpha, pow)
  {
    if stats.channelMaxAbs == [] { return []; }
    scales := RawScales(stats, alpha, pow);
    var sum := 0.0;
    for j := 0 to |scales|
      invariant sum == Sum(scales[..j])
    {
      assert scales[..j + 1][..j] == scales[..j];
      sum := sum + scales[j];
    }
    assert scales[..|scales|] == scales;
    ghost var raw := scales;
    var mean := sum / |scales| as real;
    DivBound(sum, 0.0, |scales| as real);
    if mean > 0.0 {
      for j := 0 to |scales|
        invariant |scales| == |raw|
        invariant forall i | 0 <= i < j :: scales[i] == raw[i] / mean
        invariant forall i | j <= i < |raw| :: scales[i] == raw[i]
      {
        scales := scales[j := scales[j] / mean];
      }
    }
  }

  /** One scale per input channel; all 1 without calibration samples. */
  ghost function AwqScales(stats: ActivationStats, dIn: nat, cfg: Config, pow: (real, real) -> real): seq<real> {
    if stats.samples > 0 then ScalesOf(stats, cfg.alpha, pow) else seq(dIn, _ => 1.0)
  }

  // ---------- rows, columns and groups ----------

  predicate ShapeOk(sh: Shape) { SupportedBits(sh.bits) && sh.groupSize > 0 }

  function GroupsPerRow(sh: Shape): nat
    requires sh.groupSize > 0
  {
    DivCeil(sh.dIn, sh.groupSize)
  }

  /** The group of a row and column. */
  function GroupAt(sh: Shape, row: nat, col: nat): nat
    requires sh.groupSize > 0
  {
    row * GroupsPerRow(sh) + col / sh.groupSize
  }

  /** The group of the `k`-th weight. */
  function GroupOf(sh: Shape, k: nat): nat
    requires sh.groupSize > 0 && sh.dIn > 0
  {
    GroupAt(sh, k / sh.dIn, k % sh.dIn)
  }

  /** `g` is a group of the row and holds column `col` exactly if it is the quotient. */
  lemma GroupHolds(sh: Shape, col: nat)
    requires sh.groupSize > 0 && col < sh.dIn
    ensures var g := col / sh.groupSize;
      g < GroupsPerRow(sh) && g * sh.groupSize <= col < g * sh.groupSize + sh.groupSize
  {
    var n, g := sh.groupSize, col / sh.groupSize;
    assert col == g * n + col % n;
    var total := sh.dIn + n - 1;
    assert total == total / n * n + total % n;
    if total / n <= g { MulLe(total / n, g, n); }
  }

  lemma GroupFits(sh: Shape, k: nat)
    requires sh.groupSize > 0 && k < sh.dOut * sh.dIn
    ensures sh.dIn > 0 && GroupOf(sh, k) < sh.dOut * GroupsPerRow(sh)
  {
    RowOf(k, sh.dOut, sh.dIn);
    GroupHolds(sh, k % sh.dIn);
    MulStep(k / sh.dIn, sh.dOut, GroupsPerRow(sh));
  }

  lemma GroupInRow(sh: Shape, g: nat)
    requires sh.groupSize > 0 && g < GroupsPerRow(sh)
    ensures 0 <= g * sh.groupSize < sh.dIn
  {
    var n, total := sh.groupSize, sh.dIn + sh.groupSize - 1;
    assert total == total / n * n + total % n;
    MulStep(g, total / n, n);
  }

  /** Where the weights of a group start and end: up to `groupSize` columns of a row. */
  function Span(sh: Shape, row: nat, g: nat): (r: (nat, nat))
    requires sh.groupSize > 0 && row < sh.dOut && g < GroupsPerRow(sh)
    ensures r.0 < r.1 <= sh.dOut * sh.dIn
  {
    GroupInRow(sh, g);
    MulStep(row, sh.dOut, sh.dIn);
    var start := g * sh.groupSize;
    (row * sh.dIn + start, row * sh.dIn + Min(start + sh.groupSize, sh.dIn))
  }

  function Members(scaled: seq<real>, sh: Shape, row: nat, g: nat): (r: seq<real>)
    requires sh.groupSize > 0 && |scaled| == sh.dOut * sh.dIn && row < sh.dOut && g < GroupsPerRow(sh)
    ensures r != []
  {
    scaled[Span(sh, row, g).0 .. Span(sh, row, g).1]
  }

  lemma InSpan(sh: Shape, row: nat, col: nat)
    requires sh.groupSize > 0 && row < sh.dOut && col < sh.dIn && col / sh.groupSize < GroupsPerRow(sh)
    ensures var (from, to) := Span(sh, row, col / sh.groupSize); from <= row * sh.dIn + col < to
  {
    GroupHolds(sh, col);
  }

  lemma InSlice(s: seq<real>, from: nat, to: nat, k: nat)
    requires from <= k < to <= |s|
    ensures s[k] in s[from..to]
  {
    assert s[from..to][k - from] == s[k];
  }

  /** Every weight is in its group. */
  lemma MemberOf(scaled: seq<real>, sh: Shape, row: nat, col: nat)
    requires sh.groupSize > 0 && |scaled| == sh.dOut * sh.dIn && row < sh.dOut && col < sh.dIn
    ensures col / sh.groupSize < GroupsPerRow(sh) && row * sh.dIn + col < |scaled|
    ensures scaled[row * sh.dIn + col] in Members(scaled, sh, row, col / sh.groupSize)
  {
    hide Span, GroupsPerRow, Members;
    GroupHolds(sh, col);
    InSpan(sh, row, col);
    InMembers(scaled, sh, row, col / sh.groupSize, row * sh.dIn + col);
  }

  lemma InMembers(scaled: seq<real>, sh: Shape, row: nat, g: nat, k: nat)
    requires sh.groupSize > 0 && |scaled| == sh.dOut * sh.dIn && row < sh.dOut && g < GroupsPerRow(sh)
    requires Span(sh, row, g).0 <= k < Span(sh, row, g).1
    ensures k < |scaled| && scaled[k] in Members(scaled, sh, row, g)
  {
    hide Span;
    InSlice(scaled, Span(sh, row, g).0, Span(sh, row, g).1, k);
  }

  // ---------- steps of the quantiser ----------

  /** The matrix with every column multiplied by its channel scale. */
  ghost function ScaledMatrix(weights: seq<real>, awq: seq<real>, dIn: nat): (r: seq<real>)
    requires weights != [] ==> 0 < dIn <= |awq|
    ensures |r| == |weights|
  {
    seq(|weights|, k requires 0 <= k < |weights| => weights[k] * awq[k % dIn])
  }

  lemma ScaleNext(weights: seq<real>, awq: seq<real>, dIn: nat, row: nat, col: nat, scaled: seq<real>, x: real)
    requires 0 < dIn <= |awq| && col < dIn && row * dIn + col < |weights|
    requires scaled == ScaledMatrix(weights, awq, dIn)[..row * dIn + col]
    requires x == weights[row * dIn + col] * awq[col]
    ensures scaled + [x] == ScaledMatrix(weights, awq, dIn)[..row * dIn + col + 1]
  {
    var k, m := row * dIn + col, ScaledMatrix(weights, awq, dIn);
    ModUnique(k, dIn, row, col);
    assert m[k] == weights[k] * awq[k % dIn] == x;
    assert m[..k + 1] == m[..k] + [m[k]];
  }

  method ScaleWeights(weights: seq<real>, sh: Shape, awq: seq<real>) returns (scaled: seq<real>)
    requires |weights| == sh.dOut * sh.dIn && (weights != [] ==> 0 < sh.dIn <= |awq|)
    ensures scaled == ScaledMatrix(weights, awq, sh.dIn)
  {
    hide ScaledMatrix;
    scaled := [];
    ghost var m := ScaledMatrix(weights, awq, sh.dIn);
    for row := 0 to sh.dOut
      invariant |scaled| == row * sh.dIn <= |weights| && scaled == m[..|scaled|]
    {
      MulStep(row, sh.dOut, sh.dIn);
      for col := 0 to sh.dIn
        invariant |scaled| == row * sh.dIn + col && scaled == m[..|scaled|]
      {
        var idx := row * sh.dIn + col;
        var x := weights[idx] * awq[col];
        ScaleNext(weights, awq, sh.dIn, row, col, scaled, x);
        scaled := scaled + [x];
      }
      NextRow(row, sh.dIn);
    }
  }

  /** What step size and zero point of a group promise: an error no larger than with the group's own
      bounds; without clipping they come from those bounds, with clipping no candidate is better. */
  ghost predicate GoodParameters(group: seq<real>, bits: nat, delta: real, zero: real, searched: bool, steps: nat)
    requires group != [] && (searched ==> steps > 0)
  {
    var lo, hi, e := MinOf(group), MaxOf(group), GroupError(group, bits, delta, zero);
    && delta >= 0.0
    && e <= BoundsError(group, bits, lo, hi)
    && (!searched ==> delta == Delta(lo, hi, bits) && zero == Zero(lo, delta, bits))
    && (searched && hi - lo >= 0.0000000001 ==> BestOfSearch(e, group, bits, steps))
  }

  predicate Searches(cfg: Config) { cfg.clip && cfg.clipSteps > 0 }

  method GroupParameters(group: seq<real>, cfg: Config) returns (delta: real, zero: real)
    requires group != [] && forall x | x in group :: InF32(x)
    ensures GoodParameters(group, cfg.bits, delta, zero, cfg.clip && cfg.clipSteps > 0, cfg.clipSteps)
  {
    hide GroupError, Delta, BestOfSearch;
    var wMin, wMax := FindMinMax(group);
    if cfg.clip && cfg.clipSteps > 0 {
      wMin, wMax := FindOptimalClip(group, cfg.bits, cfg.clipSteps);
    }
    delta := Delta(wMin, wMax, cfg.bits);
    zero := Zero(wMin, delta, cfg.bits);
    DeltaRange(wMin, wMax, cfg.bits);
  }

  ghost predicate GroupGood(scaled: seq<real>, sh: Shape, scales: seq<real>, zeros: seq<real>, cfg: Config,
                            row: nat, g: nat)
    requires sh.groupSize > 0 && |scaled| == sh.dOut * sh.dIn && row < sh.dOut && g < GroupsPerRow(sh)
  {
    var gi := row * GroupsPerRow(sh) + g;
    gi < |scales| && gi < |zeros| &&
    GoodParameters(Members(scaled, sh, row, g), cfg.bits, scales[gi], zeros[gi], Searches(cfg), cfg.clipSteps)
  }

  ghost predicate GroupsGood(scaled: seq<real>, sh: Shape, scales: seq<real>, zeros: seq<real>, cfg: Config)
    requires sh.groupSize > 0 && |scaled| == sh.dOut * sh.dIn
  {
    |scales| == |zeros| == sh.dOut * GroupsPerRow(sh) &&
    forall row, g | 0 <= row < sh.dOut && 0 <= g < GroupsPerRow(sh) :: GroupGood(scaled, sh, scales, zeros, cfg, row, g)
  }

  /** The groups before (row, g), in row order, are good. */
  ghost predicate GoodBefore(scaled: seq<real>, sh: Shape, scales: seq<real>, zeros: seq<real>, cfg: Config,
                             row: nat, g: nat)
    requires sh.groupSize > 0 && |scaled| == sh.dOut * sh.dIn
  {
    |scales| == |zeros| == sh.dOut * GroupsPerRow(sh) &&
    forall r, h | 0 <= r < sh.dOut && 0 <= h < GroupsPerRow(sh) && (r < row || (r == row && h < g)) ::
      GroupGood(scaled, sh, scales, zeros, cfg, r, h)
  }

  lemma StoreParameters(scaled: seq<real>, sh: Shape, scales: seq<real>, zeros: seq<real>, cfg: Config,
                        row: nat, g: nat, delta: real, zero: real)
    requires sh.groupSize > 0 && |scaled| == sh.dOut * sh.dIn && row < sh.dOut && g < GroupsPerRow(sh)
    requires GoodBefore(scaled, sh, scales, zeros, cfg, row, g)
    requires GoodParameters(Members(scaled, sh, row, g), cfg.bits, delta, zero, Searches(cfg), cfg.clipSteps)
    ensures var gi := row * GroupsPerRow(sh) + g;
      gi < |scales| == |zeros| && GoodBefore(scaled, sh, scales[gi := delta], zeros[gi := zero], cfg, row, g + 1)
  {
    hide GoodParameters, Members, GroupsPerRow;
    var n := GroupsPerRow(sh);
    var gi := row * n + g;
    MulStep(row, sh.dOut, n);
    var scales', zeros' := scales[gi := delta], zeros[gi := zero];
    forall r, h | 0 <= r < sh.dOut && 0 <= h < n && (r < row || (r == row && h < g + 1))
      ensures GroupGood(scaled, sh, scales', zeros', cfg, r, h)
    {
      if r < row { MulStep(r, row, n); }
      if r < row || h < g { assert GroupGood(scaled, sh, scales, zeros, cfg, r, h); }
    }
  }

  method AllParameters(scaled: seq<real>, sh: Shape, cfg: Config) returns (scales: seq<real>, zeros: seq<real>)
    requires sh.groupSize > 0 && |scaled| == sh.dOut * sh.dIn
    requires forall x | x in scaled :: InF32(x)
    ensures GroupsGood(scaled, sh, scales, zeros, cfg)
  {
    hide GoodBefore, GoodParameters, Members, GroupsPerRow;
    var groupsPerRow := GroupsPerRow(sh);
    scales, zeros := seq(sh.dOut * groupsPerRow, _ => 0.0), seq(sh.dOut * groupsPerRow, _ => 0.0);
    NoneGood(scaled, sh, scales, zeros, cfg);
    for row := 0 to sh.dOut
      invariant GoodBefore(scaled, sh, scales, zeros, cfg, row, 0)
    {
      for g := 0 to groupsPerRow
        invariant GoodBefore(scaled, sh, scales, zeros, cfg, row, g)
      {
        var group := Members(scaled, sh, row, g);
        MembersInF32(scaled, sh, row, g);
        var delta, zero := GroupParameters(group, cfg);
        StoreParameters(scaled, sh, scales, zeros, cfg, row, g, delta, zero);
        var groupIdx := row * groupsPerRow + g;
        scales, zeros := scales[groupIdx := delta], zeros[groupIdx := zero];
      }
      GoodRow(scaled, sh, scales, zeros, cfg, row);
    }
    AllGood(scaled, sh, scales, zeros, cfg);
  }

  lemma MembersInF32(scaled: seq<real>, sh: Shape, row: nat, g: nat)
    requires sh.groupSize > 0 && |scaled| == sh.dOut * sh.dIn && row < sh.dOut && g < GroupsPerRow(sh)
    requires forall x | x in scaled :: InF32(x)
    ensures forall x | x in Members(scaled, sh, row, g) :: InF32(x)
  {
    hide Span, GroupsPerRow, InF32;
    assert forall x | x in Members(scaled, sh, row, g) :: x in scaled;
  }

  lemma NoneGood(scaled: seq<real>, sh: Shape, scales: seq<real>, zeros: seq<real>, cfg: Config)
    requires sh.groupSize > 0 && |scaled| == sh.dOut * sh.dIn
    requires |scales| == |zeros| == sh.dOut * GroupsPerRow(sh)
    ensures GoodBefore(scaled, sh, scales, zeros, cfg, 0, 0)
  {
  }

  lemma GoodRow(scaled: seq<real>, sh: Shape, scales: seq<real>, zeros: seq<real>, cfg: Config, row: nat)
    requires sh.groupSize > 0 && |scaled| == sh.dOut * sh.dIn
    requires GoodBefore(scaled, sh, scales, zeros, cfg, row, GroupsPerRow(sh))
    ensures GoodBefore(scaled, sh, scales, zeros, cfg, row + 1, 0)
  {
    hide GroupGood, GroupsPerRow;
  }

  lemma AllGood(scaled: seq<real>, sh: Shape, scales: seq<real>, zeros: seq<real>, cfg: Config)
    requires sh.groupSize > 0 && |scaled| == sh.dOut * sh.dIn
    requires GoodBefore(scaled, sh, scales, zeros, cfg, sh.dOut, 0)
    ensures GroupsGood(scaled, sh, scales, zeros, cfg)
  {
    hide GroupGood, GroupsPerRow;
  }

  // ---------- packing ----------

  /** The integer to store for each weight. */
  ghost function Codes(scaled: seq<real>, sh: Shape, scales: seq<real>, zeros: seq<real>): (r: seq<int>)
    requires ShapeOk(sh) && |scaled| == sh.dOut * sh.dIn && |scales| == |zeros| == sh.dOut * GroupsPerRow(sh)
    ensures |r| == |scaled|
    ensures forall k | 0 <= k < |r| :: MinVal(sh.bits) <= r[k] <= MaxVal(sh.bits)
  {
    seq(|scaled|, k requires 0 <= k < |scaled| =>
      (GroupFits(sh, k); Code(sh.bits, scaled[k], scales[GroupOf(sh, k)], zeros[GroupOf(sh, k)])))
  }

  predicate InCodes(codes: seq<int>, bits: nat) {
    forall k | 0 <= k < |codes| :: MinVal(bits) <= codes[k] <= MaxVal(bits)
  }

  function SlotValue(bits: nat, codes: seq<int>, n: nat, k: nat): bv8
    requires SupportedBits(bits) && InCodes(codes, bits) && k < |codes|
  {
    if k < n then Encode(bits, codes[k]) else 0
  }

  /** The first `n` slots hold their values, the rest are still zero. */
  ghost predicate PackedUpTo(bits: nat, data: seq<bv8>, codes: seq<int>, n: nat)
    requires SupportedBits(bits) && InCodes(codes, bits)
  {
    |data| == DataLen(bits, |codes|) && n <= |codes| &&
    forall k | 0 <= k < |codes| :: SlotHolds(bits, data, k, SlotValue(bits, codes, n, k))
  }

  ghost predicate SlotHolds(bits: nat, data: seq<bv8>, k: nat, u: bv8)
    requires SupportedBits(bits)
  {
    (k / SlotsPerChunk(bits) + 1) * ChunkBytes(bits) <= |data| && Field(bits, data, k) == u
  }

  lemma PackStart(bits: nat, data: seq<bv8>, codes: seq<int>)
    requires SupportedBits(bits) && InCodes(codes, bits) && |data| == DataLen(bits, |codes|)
    requires forall i | 0 <= i < |data| :: data[i] == 0
    ensures PackedUpTo(bits, data, codes, 0)
  {
    hide Field, Encode;
    forall k | 0 <= k < |codes| ensures SlotHolds(bits, data, k, SlotValue(bits, codes, 0, k)) {
      SlotFits(bits, |codes|, k);
      ZeroFields(bits, data, k);
    }
  }

  lemma PackStep(bits: nat, before: seq<bv8>, after: seq<bv8>, codes: seq<int>, n: nat)
    requires SupportedBits(bits) && InCodes(codes, bits) && n < |codes|
    requires PackedUpTo(bits, before, codes, n) && OnlySlot(bits, before, after, n, Encode(bits, codes[n]))
    ensures PackedUpTo(bits, after, codes, n + 1)
  {
    hide Field, Encode;
    var m := n + 1;
    forall k | 0 <= k < |codes| ensures SlotHolds(bits, after, k, SlotValue(bits, codes, m, k)) {
      assert SlotHolds(bits, before, k, SlotValue(bits, codes, n, k));
    }
  }

  /** Packed data reads back as the stored integers. */
  lemma PackedReads(bits: nat, data: seq<bv8>, codes: seq<int>, k: nat)
    requires SupportedBits(bits) && InCodes(codes, bits) && PackedUpTo(bits, data, codes, |codes|) && k < |codes|
    ensures ReadSlot(bits, data, k) == codes[k]
  {
    hide Field, Encode, Decode;
    assert SlotHolds(bits, data, k, SlotValue(bits, codes, |codes|, k));
    DecodeEncode(bits, codes[k]);
  }

  method PackCodes(scaled: seq<real>, sh: Shape, scales: seq<real>, zeros: seq<real>) returns (data: seq<bv8>)
    requires ShapeOk(sh) && |scaled| == sh.dOut * sh.dIn && |scales| == |zeros| == sh.dOut * GroupsPerRow(sh)
    ensures PackedUpTo(sh.bits, data, Codes(scaled, sh, scales, zeros), |scaled|)
  {
    hide Code, Field, Encode, OnlySlot, SlotHolds, PackedUpTo, GroupsPerRow, InCodes;
    ghost var codes := Codes(scaled, sh, scales, zeros);
    CodesInRange(codes, sh.bits);
    var bytes := new bv8[DataLen(sh.bits, |scaled|)](_ => 0);
    PackStart(sh.bits, bytes[..], codes);
    for row := 0 to sh.dOut
      invariant PackedUpTo(sh.bits, bytes[..], codes, row * sh.dIn)
    {
      for col := 0 to sh.dIn
        invariant PackedUpTo(sh.bits, bytes[..], codes, row * sh.dIn + col)
      {
        IndexFits(sh, row, col);
        var idx := row * sh.dIn + col;
        PackOne(bytes, scaled, sh, scales, zeros, row, col, idx);
      }
      NextRow(row, sh.dIn);
    }
    data := bytes[..];
  }

  lemma NextRow(row: nat, n: nat)
    ensures row * n + n == (row + 1) * n
  {
  }

  lemma CodesInRange(codes: seq<int>, bits: nat)
    requires forall k | 0 <= k < |codes| :: MinVal(bits) <= codes[k] <= MaxVal(bits)
    ensures InCodes(codes, bits)
  {
  }

  lemma IndexFits(sh: Shape, row: nat, col: nat)
    requires row < sh.dOut && col < sh.dIn
    ensures row * sh.dIn + col < sh.dOut * sh.dIn
  {
    MulStep(row, sh.dOut, sh.dIn);
  }

  /** Quantise the weight at a row and column and put it into its slot. */
  method PackOne(bytes: array<bv8>, scaled: seq<real>, sh: Shape, scales: seq<real>, zeros: seq<real>,
                 row: nat, col: nat, idx: nat)
    requires ShapeOk(sh) && |scaled| == sh.dOut * sh.dIn && |scales| == |zeros| == sh.dOut * GroupsPerRow(sh)
    requires row < sh.dOut && col < sh.dIn && idx == row * sh.dIn + col < |scaled|
    requires InCodes(Codes(scaled, sh, scales, zeros), sh.bits)
    requires PackedUpTo(sh.bits, bytes[..], Codes(scaled, sh, scales, zeros), idx)
    modifies bytes
    ensures PackedUpTo(sh.bits, bytes[..], Codes(scaled, sh, scales, zeros), idx + 1)
  {
    hide Code, Field, Encode, OnlySlot, GroupsPerRow, InCodes;
    ghost var codes, before := Codes(scaled, sh, scales, zeros), bytes[..];
    ModUnique(row * sh.dIn + col, sh.dIn, row, col);
    GroupFits(sh, idx);
    var groupIdx := row * GroupsPerRow(sh) + col / sh.groupSize;
    var q := Code(sh.bits, scaled[idx], scales[groupIdx], zeros[groupIdx]);
    assert q == codes[idx];
    assert SlotHolds(sh.bits, before, idx, SlotValue(sh.bits, codes, idx, idx));
    SetSlot(sh.bits, bytes, idx, Encode(sh.bits, q));
    PackStep(sh.bits, before, bytes[..], codes, idx);
  }

  // ---------- the quantised matrix ----------

  /** What quantising `weights` with the channel scales `awq` gives. */
  ghost predicate Quantized(q: QuantizedWeight, weights: seq<real>, awq: seq<real>, cfg: Config) {
    && ShapeOk(q.shape) && q.shape.bits == cfg.bits
    && |weights| == q.shape.dOut * q.shape.dIn && (weights != [] ==> 0 < q.shape.dIn <= |awq|)
    && q.awqScales == awq
    && GroupsGood(ScaledMatrix(weights, awq, q.shape.dIn), q.shape, q.scales, q.zeros, cfg)
    && PackedUpTo(q.shape.bits, q.data, Codes(ScaledMatrix(weights, awq, q.shape.dIn), q.shape, q.scales, q.zeros),
                  |weights|)
  }

  /** A scale for every channel, and no product of weight and scale past the largest float. */
  ghost predicate InputsOk(weights: seq<real>, dIn: nat, awq: seq<real>) {
    weights != [] && dIn > 0 ==>
      dIn <= |awq| && forall k | 0 <= k < |weights| :: InF32(weights[k] * awq[k % dIn])
  }

  lemma ScaledInF32(weights: seq<real>, dIn: nat, awq: seq<real>)
    requires InputsOk(weights, dIn, awq) && (weights != [] ==> dIn > 0)
    ensures weights != [] ==> dIn <= |awq|
    ensures forall x | x in ScaledMatrix(weights, awq, dIn) :: InF32(x)
  {
    hide InF32;
    var m := ScaledMatrix(weights, awq, dIn);
    forall k | 0 <= k < |m| ensures InF32(m[k]) {
      assert m[k] == weights[k] * awq[k % dIn];
    }
  }

  method QuantizeAwq(weights: seq<real>, dOut: nat, dIn: nat, stats: ActivationStats, cfg: Config,
                     pow: (real, real) -> real)
    returns (r: Result<QuantizedWeight, Error>)
    requires cfg.groupSize > 0
    requires InputsOk(weights, dIn, AwqScales(stats, dIn, cfg, pow))
    ensures |weights| != dOut * dIn ==> r == Err(ShapeMismatch)
    ensures |weights| == dOut * dIn && cfg.bits !in {2, 3, 4, 8} ==> r == Err(UnsupportedBits)
    ensures |weights| == dOut * dIn && cfg.bits in {2, 3, 4, 8} ==>
      && r.Ok? && r.value.shape == Shape(dOut, dIn, cfg.bits, cfg.groupSize)
      && r.value.awqScales == (if stats.samples == 0 then seq(dIn, _ => 1.0) else ScalesOf(stats, cfg.alpha, pow))
      && Quantized(r.value, weights, AwqScales(stats, dIn, cfg, pow), cfg)
  {
    if |weights| != dOut * dIn { return Err(ShapeMismatch); }
    if cfg.bits != 2 && cfg.bits != 3 && cfg.bits != 4 && cfg.bits != 8 { return Err(UnsupportedBits); }
    hide GroupsGood, PackedUpTo, Codes, ScaledMatrix, InputsOk;
    if weights != [] { RowOf(0, dOut, dIn); }
    ScaledInF32(weights, dIn, AwqScales(stats, dIn, cfg, pow));
    var sh := Shape(dOut, dIn, cfg.bits, cfg.groupSize);
    var awqScales;
    if stats.samples > 0 {
      awqScales := ComputeScales(stats, cfg.alpha, pow);
    } else {
      awqScales := seq(dIn, _ => 1.0);
    }
    var scaledWeights := ScaleWeights(weights, sh, awqScales);
    var scales, zeros := AllParameters(scaledWeights, sh, cfg);
    ParameterCount(scaledWeights, sh, scales, zeros, cfg);
    var data := PackCodes(scaledWeights, sh, scales, zeros);
    r := Ok(QuantizedWeight(data, scales, zeros, awqScales, sh));
  }

  lemma ParameterCount(scaled: seq<real>, sh: Shape, scales: seq<real>, zeros: seq<real>, cfg: Config)
    requires sh.groupSize > 0 && |scaled| == sh.dOut * sh.dIn && GroupsGood(scaled, sh, scales, zeros, cfg)
    ensures |scales| == |zeros| == sh.dOut * GroupsPerRow(sh)
  {
  }

  // ---------- reading it back ----------

  function Get(s: seq<real>, i: nat, default: real): real { if i < |s| then s[i] else default }

  /** The stored integer at a row and column. */
  function ReadQuantized(q: QuantizedWeight, row: nat, col: nat): int {
    ReadSlot(q.shape.bits, q.data, row * q.shape.dIn + col)
  }

  function ScaleAt(q: QuantizedWeight, row: nat, col: nat): real
    requires q.shape.groupSize > 0
  {
    Get(q.scales, GroupAt(q.shape, row, col), 1.0)
  }

  function ZeroAt(q: QuantizedWeight, row: nat, col: nat): real
    requires q.shape.groupSize > 0
  {
    Get(q.zeros, GroupAt(q.shape, row, col), 0.0)
  }

  function AwqAt(q: QuantizedWeight, col: nat): real { Get(q.awqScales, col, 1.0) }

  /** The weight in scaled space that the stored integer stands for. */
  function RestoredAt(q: QuantizedWeight, row: nat, col: nat): real
    requires q.shape.groupSize > 0
  {
    ReadQuantized(q, row, col) as real * ScaleAt(q, row, col) + ZeroAt(q, row, col)
  }

  /** The weight that is used in inference. */
  function DequantAt(q: QuantizedWeight, row: nat, col: nat): real
    requires q.shape.groupSize > 0 && AwqAt(q, col) != 0.0
  {
    RestoredAt(q, row, col) / AwqAt(q, col)
  }

  /** Behind the end of a parameter list the step and the channel scale are one and the offset is zero. */
  lemma MissingParameters(q: QuantizedWeight, row: nat, col: nat)
    requires q.shape.groupSize > 0 && col >= |q.awqScales| && GroupAt(q.shape, row, col) >= |q.scales|
    requires GroupAt(q.shape, row, col) >= |q.zeros|
    ensures DequantAt(q, row, col) == ReadQuantized(q, row, col) as real
  {
    hide ReadQuantized, GroupAt;
  }

  function WeightAt(weights: seq<real>, sh: Shape, row: nat, col: nat): real
    requires |weights| == sh.dOut * sh.dIn && row < sh.dOut && col < sh.dIn
  {
    IndexFits(sh, row, col);
    weights[row * sh.dIn + col]
  }

  /** A weight times its channel scale. */
  function ScaledWeightAt(q: QuantizedWeight, weights: seq<real>, row: nat, col: nat): real
    requires |weights| == q.shape.dOut * q.shape.dIn && row < q.shape.dOut && col < q.shape.dIn
  {
    WeightAt(weights, q.shape, row, col) * AwqAt(q, col)
  }

  /** The `k`-th code, in terms of row and column. */
  lemma CodeAtIndex(scaled: seq<real>, sh: Shape, scales: seq<real>, zeros: seq<real>, row: nat, col: nat)
    requires ShapeOk(sh) && |scaled| == sh.dOut * sh.dIn && |scales| == |zeros| == sh.dOut * GroupsPerRow(sh)
    requires row < sh.dOut && col < sh.dIn
    ensures row * sh.dIn + col < |scaled|
    ensures Codes(scaled, sh, scales, zeros)[row * sh.dIn + col] ==
      Code(sh.bits, WeightAt(scaled, sh, row, col),
           Get(scales, GroupAt(sh, row, col), 1.0), Get(zeros, GroupAt(sh, row, col), 0.0))
  {
    hide Code, GroupsPerRow;
    var k := row * sh.dIn + col;
    IndexFits(sh, row, col);
    ModUnique(k, sh.dIn, row, col);
    GroupFits(sh, k);
  }

  lemma ReadsCode(q: QuantizedWeight, weights: seq<real>, awq: seq<real>, cfg: Config, k: nat)
    requires Quantized(q, weights, awq, cfg) && k < |weights|
    ensures ShapeOk(q.shape) && |q.scales| == |q.zeros| == q.shape.dOut * GroupsPerRow(q.shape)
    ensures ReadSlot(cfg.bits, q.data, k)
      == Codes(ScaledMatrix(weights, awq, q.shape.dIn), q.shape, q.scales, q.zeros)[k]
  {
    hide GroupsGood, PackedUpTo, Code, ReadSlot, GroupsPerRow;
    var scaled := ScaledMatrix(weights, awq, q.shape.dIn);
    ParameterCount(scaled, q.shape, q.scales, q.zeros, cfg);
    var codes := Codes(scaled, q.shape, q.scales, q.zeros);
    hide Codes;
    CodesInRange(codes, cfg.bits);
    PackedReads(cfg.bits, q.data, codes, k);
  }

  lemma ScaledAt(q: QuantizedWeight, weights: seq<real>, awq: seq<real>, cfg: Config, row: nat, col: nat)
    requires Quantized(q, weights, awq, cfg) && row < q.shape.dOut && col < q.shape.dIn
    ensures |weights| == q.shape.dOut * q.shape.dIn && row * q.shape.dIn + col < |weights| && 0 < q.shape.dIn <= |awq|
    ensures WeightAt(ScaledMatrix(weights, awq, q.shape.dIn), q.shape, row, col)
      == ScaledWeightAt(q, weights, row, col)
  {
    hide GroupsGood, PackedUpTo, Codes;
    IndexFits(q.shape, row, col);
    ModUnique(row * q.shape.dIn + col, q.shape.dIn, row, col);
  }

  /** Every weight is read back as the integer the quantiser computed for it, whatever the bit width and shape. */
  lemma ReadsBack(q: QuantizedWeight, weights: seq<real>, awq: seq<real>, cfg: Config, row: nat, col: nat)
    requires Quantized(q, weights, awq, cfg) && row < q.shape.dOut && col < q.shape.dIn
    ensures |weights| == q.shape.dOut * q.shape.dIn && cfg.bits == q.shape.bits && q.shape.groupSize > 0
    ensures ReadQuantized(q, row, col) ==
      Code(cfg.bits, ScaledWeightAt(q, weights, row, col), ScaleAt(q, row, col), ZeroAt(q, row, col))
  {
    ScaledAt(q, weights, awq, cfg, row, col);
    hide GroupsGood, PackedUpTo, Code, Codes, ReadSlot, WeightAt, ScaledWeightAt, GroupAt, Get, GroupsPerRow,
         ScaledMatrix;
    var k := row * q.shape.dIn + col;
    ReadsCode(q, weights, awq, cfg, k);
    CodeAtIndex(ScaledMatrix(weights, awq, q.shape.dIn), q.shape, q.scales, q.zeros, row, col);
  }
}
