/** All layers of the hot/cold cache together: the RAM account and runs of operations. */
module MmapCache {
  import opened Arith
  import opened FloatBytes
  import opened MmapModel
  import opened Wrappers

  datatype Cache = Cache(layers: seq<Layer>, ramUsed: nat)

  datatype Op = Append(layer: nat, entry: Entry) | Clear | Rollback(newLen: nat)

  /** Bytes of one key and one value. */
  function PairBytes(d: Dims): nat { EntryBytes(d) * 2 }

  predicate LayerOk(l: Layer) { |l.hotValues| == |l.hotKeys| && l.totalLen == l.coldLen + |l.hotKeys| }

  predicate LayersOk(layers: seq<Layer>) { forall i | 0 <= i < |layers| :: LayerOk(layers[i]) }

  function HotBytes(layers: seq<Layer>, d: Dims): nat {
    if layers == [] then 0
    else HotBytes(layers[..|layers| - 1], d) + |layers[|layers| - 1].hotKeys| * PairBytes(d)
  }

  function SpilledAll(layers: seq<Layer>, count: nat): (r: seq<Layer>)
    requires LayersOk(layers)
    ensures |r| == |layers|
  {
    seq(|layers|, i requires 0 <= i < |layers| => Spilled(layers[i], count))
  }

  /** The bytes that spilling up to `count` entries of every layer frees. */
  function FreedBytes(layers: seq<Layer>, count: nat, d: Dims): nat {
    if layers == [] then 0
    else FreedBytes(layers[..|layers| - 1], count, d) + Min(count, |layers[|layers| - 1].hotKeys|) * PairBytes(d)
  }

  /** A quarter of the hot entries of the first layer, at least one. */
  function SpillCount(layers: seq<Layer>): (n: nat)
    ensures layers == [] || |layers[0].hotKeys| < 4 ==> n == 1
    ensures layers != [] && |layers[0].hotKeys| >= 4 ==> 4 * n <= |layers[0].hotKeys| < 4 * n + 4
  {
    Max((if layers == [] then 0 else |layers[0].hotKeys|) / 4, 1)
  }

  function SaturatingSub(a: nat, b: nat): nat { if a < b then 0 else a - b }

  function SpilledOldest(c: Cache, d: Dims): Cache
    requires LayersOk(c.layers)
  {
    var n := SpillCount(c.layers);
    Cache(SpilledAll(c.layers, n), SaturatingSub(c.ramUsed, FreedBytes(c.layers, n, d)))
  }

  function Appended(c: Cache, i: nat, e: Entry, budget: nat, d: Dims): Cache
    requires LayersOk(c.layers) && i < |c.layers|
  {
    var c1 := if c.ramUsed + PairBytes(d) > budget then SpilledOldest(c, d) else c;
    Cache(c1.layers[i := AppendHot(c1.layers[i], e)], c1.ramUsed + PairBytes(d))
  }

  function ClearedAll(layers: seq<Layer>): (r: seq<Layer>)
    ensures |r| == |layers|
  {
    seq(|layers|, i requires 0 <= i < |layers| => Cleared(layers[i]))
  }

  function RolledBackAll(layers: seq<Layer>, newLen: nat): (r: seq<Layer>)
    requires LayersOk(layers)
    ensures |r| == |layers|
  {
    seq(|layers|, i requires 0 <= i < |layers| => RolledBack(layers[i], newLen))
  }

  predicate OpOk(c: Cache, op: Op, d: Dims) { op.Append? ==> op.layer < |c.layers| && EntryOk(op.entry, d) }

  function Step(c: Cache, op: Op, budget: nat, d: Dims): Cache
    requires LayersOk(c.layers) && OpOk(c, op, d)
  {
    match op
    case Append(i, e) => Appended(c, i, e, budget, d)
    case Clear => Cache(ClearedAll(c.layers), 0)
    case Rollback(n) => Cache(RolledBackAll(c.layers, n), HotBytes(RolledBackAll(c.layers, n), d))
  }

  // ---------- the RAM account ----------

  /** `ramUsed` is the size of the hot entries of all layers, and stays within the budget, or one entry if that is
      larger. */
  predicate RamOk(c: Cache, budget: nat, d: Dims) {
    LayersOk(c.layers) && c.ramUsed == HotBytes(c.layers, d) && c.ramUsed <= Max(budget, PairBytes(d))
  }

  /** The account counts the bytes that the hot keys and values would take in the files. */
  lemma HotBytesOfLayer(l: Layer, d: Dims)
    requires Wide(l.hotKeys, KvDim(d)) && Wide(l.hotValues, KvDim(d)) && |l.hotValues| == |l.hotKeys|
    ensures HotBytes([l], d) == |Encode(Flatten(l.hotKeys))| + |Encode(Flatten(l.hotValues))|
  {
    FlattenLength(l.hotKeys, KvDim(d));
    FlattenLength(l.hotValues, KvDim(d));
    hide KvDim;
    assert HotBytes([l][..0], d) == 0;
    EightTimes(|l.hotKeys|, KvDim(d));
  }

  lemma EightTimes(a: nat, b: nat)
    ensures a * (4 * b * 2) == 4 * (a * b) + 4 * (a * b)
  {
  }

  lemma {:induction false} HotOfUpdate(layers: seq<Layer>, i: nat, l: Layer, d: Dims)
    requires i < |layers|
    ensures HotBytes(layers[i := l], d) + |layers[i].hotKeys| * PairBytes(d)
      == HotBytes(layers, d) + |l.hotKeys| * PairBytes(d)
  {
    var n := |layers| - 1;
    if i < n {
      HotOfUpdate(layers[..n], i, l, d);
      assert layers[i := l][..n] == layers[..n][i := l];
    } else {
      assert layers[i := l][..n] == layers[..n];
    }
  }

  lemma SpilledSize(l: Layer, count: nat, d: Dims)
    requires LayerOk(l)
    ensures LayerOk(Spilled(l, count))
    ensures |Spilled(l, count).hotKeys| * PairBytes(d) + Min(count, |l.hotKeys|) * PairBytes(d)
      == |l.hotKeys| * PairBytes(d)
  {
    hide PairBytes;
    var a, b := |Spilled(l, count).hotKeys|, Min(count, |l.hotKeys|);
    assert a + b == |l.hotKeys|;
    SumTimes(a, b, |l.hotKeys|, PairBytes(d));
  }

  lemma SumTimes(a: nat, b: nat, c: nat, p: nat)
    requires a + b == c
    ensures a * p + b * p == c * p
  {
  }

  /** What is spilled is no longer hot. */
  lemma {:induction false} HotOfSpill(layers: seq<Layer>, count: nat, d: Dims)
    requires LayersOk(layers)
    ensures LayersOk(SpilledAll(layers, count))
    ensures HotBytes(SpilledAll(layers, count), d) + FreedBytes(layers, count, d) == HotBytes(layers, d)
  {
    hide Spilled, LayerOk, PairBytes;
    forall i | 0 <= i < |layers| ensures LayerOk(SpilledAll(layers, count)[i]) { SpilledSize(layers[i], count, d); }
    if layers != [] {
      var n := |layers| - 1;
      HotOfSpill(layers[..n], count, d);
      SpilledSize(layers[n], count, d);
      assert SpilledAll(layers, count)[..n] == SpilledAll(layers[..n], count);
    }
  }

  /** Something is freed if anything is hot. */
  lemma {:induction false} FreesSome(layers: seq<Layer>, count: nat, d: Dims)
    requires count >= 1
    ensures HotBytes(layers, d) == 0 || FreedBytes(layers, count, d) >= PairBytes(d)
  {
    if layers != [] {
      var n := |layers| - 1;
      FreesSome(layers[..n], count, d);
      if layers[n].hotKeys != [] { MulLe(1, Min(count, |layers[n].hotKeys|), PairBytes(d)); }
    }
  }

  lemma AppendRam(c: Cache, i: nat, e: Entry, budget: nat, d: Dims)
    requires RamOk(c, budget, d) && i < |c.layers|
    ensures RamOk(Appended(c, i, e, budget, d), budget, d)
  {
    hide Spilled, SpilledAll, PairBytes, HotBytes, FreedBytes;
    var n, p := SpillCount(c.layers), PairBytes(d);
    var c1 := if c.ramUsed + p > budget then SpilledOldest(c, d) else c;
    HotOfSpill(c.layers, n, d);
    FreesSome(c.layers, n, d);
    HotOfUpdate(c1.layers, i, AppendHot(c1.layers[i], e), d);
    OneMore(|c1.layers[i].hotKeys|, p);
  }

  lemma OneMore(n: nat, p: nat)
    ensures (n + 1) * p == n * p + p
  {
  }

  lemma {:induction false} HotOfCleared(layers: seq<Layer>, d: Dims)
    ensures HotBytes(ClearedAll(layers), d) == 0
  {
    if layers != [] {
      HotOfCleared(layers[..|layers| - 1], d);
      assert ClearedAll(layers)[..|layers| - 1] == ClearedAll(layers[..|layers| - 1]);
    }
  }

  lemma {:induction false} RollbackShrinks(layers: seq<Layer>, newLen: nat, d: Dims)
    requires LayersOk(layers)
    ensures LayersOk(RolledBackAll(layers, newLen))
    ensures HotBytes(RolledBackAll(layers, newLen), d) <= HotBytes(layers, d)
  {
    hide PairBytes;
    if layers != [] {
      var n := |layers| - 1;
      RollbackShrinks(layers[..n], newLen, d);
      assert RolledBackAll(layers, newLen)[..n] == RolledBackAll(layers[..n], newLen);
      MulLe(|RolledBack(layers[n], newLen).hotKeys|, |layers[n].hotKeys|, PairBytes(d));
    }
  }

  /** Every operation, any rollback included, keeps the account, however uneven the layers are. */
  lemma StepKeepsRam(c: Cache, op: Op, budget: nat, d: Dims)
    requires RamOk(c, budget, d) && OpOk(c, op, d)
    ensures RamOk(Step(c, op, budget, d), budget, d)
  {
    hide Spilled, SpilledAll, PairBytes, HotBytes, FreedBytes, SpilledOldest, RolledBack;
    match op
    case Append(i, e) => AppendRam(c, i, e, budget, d);
    case Clear => HotOfCleared(c.layers, d);
    case Rollback(n) => RollbackShrinks(c.layers, n, d);
  }

  // ---------- the lists behind the layers ----------

  ghost predicate AllGood(c: Cache, lists: seq<seq<Entry>>, d: Dims) {
    |lists| == |c.layers| && forall i | 0 <= i < |lists| :: Good(c.layers[i], lists[i], d)
  }

  /** The same operation on plain lists. */
  function ListStep(lists: seq<seq<Entry>>, op: Op): (r: seq<seq<Entry>>)
    requires op.Append? ==> op.layer < |lists|
    ensures |r| == |lists|
  {
    match op
    case Append(i, e) => lists[i := lists[i] + [e]]
    case Clear => seq(|lists|, _ => [])
    case Rollback(n) => seq(|lists|, i requires 0 <= i < |lists| => lists[i][..Min(n, |lists[i]|)])
  }

  /** Rollbacks must not reach into the cold part of any layer. */
  predicate Admissible(c: Cache, op: Op, d: Dims) {
    op.Rollback? ==> forall i | 0 <= i < |c.layers| :: KeepsCold(c.layers[i], op.newLen, d)
  }

  lemma AppendRefines(c: Cache, lists: seq<seq<Entry>>, i: nat, e: Entry, budget: nat, d: Dims)
    requires LayersOk(c.layers) && AllGood(c, lists, d) && i < |c.layers| && EntryOk(e, d)
    ensures AllGood(Appended(c, i, e, budget, d), lists[i := lists[i] + [e]], d)
  {
    hide Good, Spilled, PairBytes, FreedBytes, SpillCount, AppendHot;
    var n := SpillCount(c.layers);
    forall k | 0 <= k < |lists| ensures Good(SpilledAll(c.layers, n)[k], lists[k], d) {
      SpillGood(c.layers[k], lists[k], n, d);
    }
    var c1 := if c.ramUsed + PairBytes(d) > budget then SpilledOldest(c, d) else c;
    AppendGood(c1.layers[i], lists[i], e, d);
  }

  /** An operation does to the cache what it does to the plain lists; a rollback does so exactly if it is admissible. */
  lemma StepRefines(c: Cache, lists: seq<seq<Entry>>, op: Op, budget: nat, d: Dims)
    requires LayersOk(c.layers) && AllGood(c, lists, d) && OpOk(c, op, d)
    ensures AllGood(Step(c, op, budget, d), ListStep(lists, op), d) <==> Admissible(c, op, d)
  {
    hide Good, Appended, RolledBack, Cleared, KeepsCold;
    match op
    case Append(i, e) => AppendRefines(c, lists, i, e, budget, d);
    case Clear =>
      forall i | 0 <= i < |lists| ensures Good(Cleared(c.layers[i]), [], d) { ClearGood(c.layers[i], d); }
    case Rollback(n) =>
      forall i | 0 <= i < |lists|
        ensures Good(RolledBack(c.layers[i], n), lists[i][..Min(n, |lists[i]|)], d) <==> KeepsCold(c.layers[i], n, d)
      {
        RollbackExact(c.layers[i], lists[i], n, d);
      }
      RollbackAllExact(c, lists, n, d);
  }

  lemma RollbackAllExact(c: Cache, lists: seq<seq<Entry>>, n: nat, d: Dims)
    requires LayersOk(c.layers) && |lists| == |c.layers|
    requires forall i | 0 <= i < |lists| ::
      Good(RolledBack(c.layers[i], n), lists[i][..Min(n, |lists[i]|)], d) <==> KeepsCold(c.layers[i], n, d)
    ensures AllGood(Cache(RolledBackAll(c.layers, n), HotBytes(RolledBackAll(c.layers, n), d)),
                    ListStep(lists, Rollback(n)), d)
      <==> Admissible(c, Rollback(n), d)
  {
    hide Good, RolledBack, KeepsCold, HotBytes;
    var c' := Cache(RolledBackAll(c.layers, n), HotBytes(RolledBackAll(c.layers, n), d));
    var lists' := ListStep(lists, Rollback(n));
    if AllGood(c', lists', d) {
      forall i | 0 <= i < |c.layers| ensures KeepsCold(c.layers[i], n, d) { assert Good(c'.layers[i], lists'[i], d); }
    }
  }

  // ---------- runs ----------

  function Start(nLayers: nat): Cache { Cache(seq(nLayers, _ => NewLayer(None, None)), 0) }

  /** The state after a run from empty files, if every operation in it fits and is admissible. */
  ghost predicate Reaches(nLayers: nat, ops: seq<Op>, budget: nat, d: Dims, c: Cache) {
    if ops == [] then c == Start(nLayers)
    else
      exists before :: Reaches(nLayers, ops[..|ops| - 1], budget, d, before)
        && LayersOk(before.layers) && OpOk(before, ops[|ops| - 1], d) && Admissible(before, ops[|ops| - 1], d)
        && c == Step(before, ops[|ops| - 1], budget, d)
  }

  /** The lists after the same run. */
  function ListRun(nLayers: nat, ops: seq<Op>): (r: seq<seq<Entry>>)
    requires forall k | 0 <= k < |ops| && ops[k].Append? :: ops[k].layer < nLayers
    ensures |r| == nLayers
  {
    if ops == [] then seq(nLayers, _ => [])
    else
      assert forall k | 0 <= k < |ops| - 1 :: ops[..|ops| - 1][k] == ops[k];
      ListStep(ListRun(nLayers, ops[..|ops| - 1]), ops[|ops| - 1])
  }

  lemma {:induction false} HotOfStart(nLayers: nat, d: Dims)
    ensures HotBytes(Start(nLayers).layers, d) == 0
  {
    if nLayers > 0 {
      HotOfStart(nLayers - 1, d);
      assert Start(nLayers).layers[..nLayers - 1] == Start(nLayers - 1).layers;
    }
  }

  /** In every run the cache stands for the plain lists and the RAM account holds. */
  lemma {:induction false} RunRefines(nLayers: nat, ops: seq<Op>, budget: nat, d: Dims, c: Cache)
    requires Reaches(nLayers, ops, budget, d, c)
    ensures |c.layers| == nLayers && RamOk(c, budget, d)
    ensures forall k | 0 <= k < |ops| && ops[k].Append? :: ops[k].layer < nLayers
    ensures AllGood(c, ListRun(nLayers, ops), d)
  {
    hide Good, Step, HotBytes;
    if ops == [] {
      HotOfStart(nLayers, d);
      forall i | 0 <= i < nLayers ensures Good(c.layers[i], [], d) { NewGood(None, None, d); }
    } else {
      var n := |ops| - 1;
      var before :| Reaches(nLayers, ops[..n], budget, d, before)
        && LayersOk(before.layers) && OpOk(before, ops[n], d) && Admissible(before, ops[n], d)
        && c == Step(before, ops[n], budget, d);
      RunRefines(nLayers, ops[..n], budget, d, before);
      assert forall k | 0 <= k < n :: ops[..n][k] == ops[k];
      StepRefines(before, ListRun(nLayers, ops[..n]), ops[n], budget, d);
      StepKeepsRam(before, ops[n], budget, d);
    }
  }

  /** Every read in every run returns what the plain list holds. */
  lemma RunReads(nLayers: nat, ops: seq<Op>, budget: nat, d: Dims, c: Cache, i: nat, pos: nat, head: nat)
    requires Reaches(nLayers, ops, budget, d, c) && i < nLayers && head < d.heads
    requires forall k | 0 <= k < |ops| && ops[k].Append? :: ops[k].layer < nLayers
    requires pos < |ListRun(nLayers, ops)[i]|
    ensures |c.layers| == nLayers && c.layers[i].totalLen == |ListRun(nLayers, ops)[i]|
    ensures var l, e, start := c.layers[i], ListRun(nLayers, ops)[i][pos], head * d.headDim;
      && 0 <= start <= start + d.headDim <= KvDim(d) && EntryOk(e, d)
      && Wide(l.hotKeys, KvDim(d)) && Wide(l.hotValues, KvDim(d))
      && l.coldLen + |l.hotKeys| == l.totalLen == l.coldLen + |l.hotValues|
      && Read(l.hotKeys, l.keyMap, l.coldLen, pos, head, d) == e.key[start .. start + d.headDim]
      && Read(l.hotValues, l.valueMap, l.coldLen, pos, head, d) == e.value[start .. start + d.headDim]
  {
    hide Read, Stored, HeadStart, KvDim, ListRun, Reaches, RamOk;
    RunRefines(nLayers, ops, budget, d, c);
    assert Good(c.layers[i], ListRun(nLayers, ops)[i], d);
    ReadsAreList(c.layers[i], ListRun(nLayers, ops)[i], pos, head, d);
  }
}
