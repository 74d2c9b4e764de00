/** The hot/cold cache as it is written: layer objects whose hot vectors are pushed, drained and truncated,
    and a cache that keeps the RAM account over them. */
module MmapKvCache {
  import opened Arith
  import opened FloatBytes
  import opened MmapCache
  import opened MmapModel
  import opened Wrappers

  class MmapLayerKv {
    var hotKeys: seq<Vec>
    var hotValues: seq<Vec>
    var isOpen: bool
    var keyDisk: Option<seq<Byte>>
    var valueDisk: Option<seq<Byte>>
    var keyMap: Option<seq<Byte>>
    var valueMap: Option<seq<Byte>>
    var coldLen: nat
    var totalLen: nat
    const d: Dims

    ghost function Value(): Layer
      reads this
    {
      Layer(hotKeys, hotValues, isOpen, keyDisk, valueDisk, keyMap, valueMap, coldLen, totalLen)
    }

    constructor (d: Dims, keyDisk: Option<seq<Byte>>, valueDisk: Option<seq<Byte>>)
      ensures this.d == d && Value() == NewLayer(keyDisk, valueDisk)
    {
      this.d := d;
      hotKeys, hotValues, isOpen, coldLen, totalLen := [], [], false, 0, 0;
      this.keyDisk, this.valueDisk, keyMap, valueMap := keyDisk, valueDisk, None, None;
    }

    method PushHot(e: Entry)
      modifies this
      ensures Value() == AppendHot(old(Value()), e)
    {
      hotKeys := hotKeys + [e.key];
      hotValues := hotValues + [e.value];
      totalLen := totalLen + 1;
    }

    method KeyAt(pos: nat, kvHead: nat) returns (r: seq<Float>)
      requires pos < coldLen + |hotKeys| && kvHead < d.heads && Wide(hotKeys, KvDim(d))
      ensures r == Read(hotKeys, keyMap, coldLen, pos, kvHead, d)
    {
      r := ReadAt(hotKeys, keyMap, pos, kvHead);
    }

    method ValueAt(pos: nat, kvHead: nat) returns (r: seq<Float>)
      requires pos < coldLen + |hotValues| && kvHead < d.heads && Wide(hotValues, KvDim(d))
      ensures r == Read(hotValues, valueMap, coldLen, pos, kvHead, d)
    {
      r := ReadAt(hotValues, valueMap, pos, kvHead);
    }

    /** The lookup that keys and values share. */
    method ReadAt(hot: seq<Vec>, mapped: Option<seq<Byte>>, pos: nat, kvHead: nat) returns (r: seq<Float>)
      requires pos < coldLen + |hot| && kvHead < d.heads && Wide(hot, KvDim(d))
      ensures r == Read(hot, mapped, coldLen, pos, kvHead, d)
    {
      hide KvDim, HeadStart, Decode, ByteRange;
      var start := HeadStart(kvHead, d);
      var end := start + d.headDim;
      if pos < coldLen {
        if mapped.None? { return []; }
        var (byteOffset, byteEnd) := ByteRange(pos, start, end, d);
        r := if byteEnd <= |mapped.value| then Decode(mapped.value[byteOffset..byteEnd]) else [];
      } else {
        r := hot[pos - coldLen][start..end];
      }
    }

    /** Write the oldest entries to the backing files, drop them from memory and map the files again. */
    method SpillToCold(count: nat) returns (freed: nat)
      requires |hotValues| == |hotKeys|
      modifies this
      ensures Value() == Spilled(old(Value()), count)
      ensures freed == Min(count, |old(hotKeys)|) * PairBytes(d)
    {
      hide Written, Content, EntryBytes;
      var actual := if count < |hotKeys| then count else |hotKeys|;
      if actual == 0 { return 0; }
      if !isOpen {
        isOpen := true;
        OpenKeeps(keyDisk, hotKeys[..actual]);
        OpenKeeps(valueDisk, hotValues[..actual]);
        keyDisk, valueDisk := Some(Content(keyDisk)), Some(Content(valueDisk));
      }
      WriteRows(actual);
      hotKeys := hotKeys[actual..];
      hotValues := hotValues[actual..];
      coldLen := coldLen + actual;
      Remap();
      freed := actual * EntryBytes(d) * 2;
      assert freed == actual * PairBytes(d);
    }

    method WriteRows(actual: nat)
      requires actual <= |hotKeys| == |hotValues|
      modifies `keyDisk, `valueDisk
      ensures keyDisk == Written(old(keyDisk), hotKeys[..actual])
      ensures valueDisk == Written(old(valueDisk), hotValues[..actual])
    {
      hide Encode, Flatten, Written;
      NoRows(keyDisk);
      NoRows(valueDisk);
      keyDisk, valueDisk := Some(Content(keyDisk)), Some(Content(valueDisk));
      for i := 0 to actual
        invariant keyDisk == Written(old(keyDisk), hotKeys[..i])
        invariant valueDisk == Written(old(valueDisk), hotValues[..i])
      {
        OneRow(old(keyDisk), hotKeys, i);
        OneRow(old(valueDisk), hotValues, i);
        keyDisk := Some(Content(keyDisk) + Encode(hotKeys[i]));
        valueDisk := Some(Content(valueDisk) + Encode(hotValues[i]));
      }
    }

    method Remap()
      modifies `keyMap, `valueMap
      ensures Value() == Remapped(old(Value()))
    {
      if keyDisk.Some? && |keyDisk.value| > 0 {
        keyMap := keyDisk;
        valueMap := Some(Content(valueDisk));
      }
    }

    method Reset()
      modifies this
      ensures Value() == Cleared(old(Value()))
    {
      hotKeys, hotValues := [], [];
      keyMap, valueMap, isOpen := None, None, false;
      coldLen, totalLen := 0, 0;
      keyDisk, valueDisk := None, None;
    }

    method CutTo(newLen: nat)
      requires |hotValues| == |hotKeys| && totalLen == coldLen + |hotKeys|
      modifies this
      ensures Value() == RolledBack(old(Value()), newLen)
    {
      if newLen >= totalLen { return; }
      if newLen <= coldLen {
        hotKeys, hotValues := [], [];
        coldLen, totalLen := 0, 0;
      } else {
        var hotNewLen := newLen - coldLen;
        hotKeys := hotKeys[..hotNewLen];
        hotValues := hotValues[..hotNewLen];
        totalLen := newLen;
      }
    }
  }

  /** Opening a file for appending keeps its bytes. */
  lemma OpenKeeps(disk: Option<seq<Byte>>, rows: seq<Vec>)
    ensures Written(Some(Content(disk)), rows) == Written(disk, rows)
  {
  }

  lemma NoRows(disk: Option<seq<Byte>>)
    ensures Some(Content(disk)) == Written(disk, [])
  {
    NothingStored();
    assert Content(disk) + [] == Content(disk);
  }

  lemma OneRow(disk: Option<seq<Byte>>, rows: seq<Vec>, i: nat)
    requires i < |rows|
    ensures Some(Content(Written(disk, rows[..i])) + Encode(rows[i])) == Written(disk, rows[..i + 1])
  {
    hide Encode;
    assert rows[..i + 1][..i] == rows[..i];
    EncodeAppend(Flatten(rows[..i]), rows[i]);
    ConcatAssoc(Content(disk), Encode(Flatten(rows[..i])), Encode(rows[i]));
  }

  // ---------- all layers ----------

  class MmapKvCache {
    const layers: seq<MmapLayerKv>
    var ramUsed: nat
    const ramBudget: nat
    const d: Dims

    ghost predicate Shape()
      reads layers
    {
      && (forall i, j | 0 <= i < j < |layers| :: layers[i] != layers[j])
      && (forall i | 0 <= i < |layers| :: layers[i].d == d)
      && LayersOk(LayerValues())
    }

    ghost function LayerValues(): (r: seq<Layer>)
      reads layers
      ensures |r| == |layers|
    {
      seq(|layers|, i requires 0 <= i < |layers| reads layers => layers[i].Value())
    }

    ghost function Value(): Cache
      reads this, layers
    {
      Cache(LayerValues(), ramUsed)
    }

    constructor (layers: seq<MmapLayerKv>, d: Dims, ramBudget: nat)
      requires forall i, j | 0 <= i < j < |layers| :: layers[i] != layers[j]
      requires forall i | 0 <= i < |layers| :: layers[i].d == d && layers[i].Value() == NewLayer(None, None)
      ensures this.layers == layers && this.d == d && this.ramBudget == ramBudget
      ensures Shape() && Value() == Start(|layers|)
    {
      this.layers, this.d, this.ramBudget, ramUsed := layers, d, ramBudget, 0;
    }

    method Push(layerIdx: nat, e: Entry)
      requires Shape() && layerIdx < |layers|
      modifies this, layers
      ensures Shape() && Value() == Appended(old(Value()), layerIdx, e, ramBudget, d)
    {
      hide Spilled, SpillCount, FreedBytes, LayerOk, PairBytes, AppendHot;
      var entryBytes := PairBytes(d);
      if ramUsed + entryBytes > ramBudget {
        SpillOldestHot();
      }
      ramUsed := ramUsed + entryBytes;
      ghost var before := LayerValues();
      layers[layerIdx].PushHot(e);
      assert LayerValues() == before[layerIdx := AppendHot(before[layerIdx], e)];
      HotOk(before[layerIdx], e);
    }

    method SpillOldestHot()
      requires Shape()
      modifies this, layers
      ensures Shape() && Value() == SpilledOldest(old(Value()), d)
    {
      hide Spilled, FreedBytes, LayerOk, PairBytes;
      var hotLen := if layers == [] then 0 else |layers[0].hotKeys|;
      var spillCount := if hotLen / 4 > 1 then hotLen / 4 else 1;
      assert spillCount == SpillCount(old(LayerValues()));
      SpillsOk(old(LayerValues()), spillCount);
      var freed := SpillLayers(spillCount);
      ramUsed := if ramUsed < freed then 0 else ramUsed - freed;
    }

    method SpillLayers(count: nat) returns (freed: nat)
      requires Shape()
      modifies layers
      ensures LayerValues() == SpilledAll(old(LayerValues()), count)
      ensures freed == FreedBytes(old(LayerValues()), count, d)
    {
      hide Spilled, PairBytes;
      ghost var was := LayerValues();
      freed := 0;
      for i := 0 to |layers|
        invariant LayersOk(was)
        invariant forall k | 0 <= k < i :: layers[k].Value() == Spilled(was[k], count)
        invariant forall k | i <= k < |layers| :: layers[k].Value() == was[k]
        invariant freed == FreedBytes(was[..i], count, d)
      {
        assert LayerOk(was[i]);
        var f := layers[i].SpillToCold(count);
        freed := freed + f;
        assert was[..i + 1][..i] == was[..i];
      }
      assert was[..|layers|] == was;
    }

    method Empty()
      requires Shape()
      modifies this, layers
      ensures Shape() && Value() == Step(old(Value()), Clear, ramBudget, d)
    {
      for i := 0 to |layers|
        invariant forall k | 0 <= k < i :: layers[k].Value() == Cleared(old(layers[k].Value()))
      {
        layers[i].Reset();
      }
      ramUsed := 0;
      assert LayerValues() == ClearedAll(old(LayerValues()));
    }

    method CutAll(newLen: nat)
      requires Shape()
      modifies this, layers
      ensures Shape() && Value() == Step(old(Value()), Rollback(newLen), ramBudget, d)
    {
      hide RolledBack, LayerOk, PairBytes, LayersOk;
      CutsOk(old(LayerValues()), newLen);
      CutLayers(newLen);
      ramUsed := SumHot();
    }

    method CutLayers(newLen: nat)
      requires Shape()
      modifies layers
      ensures LayerValues() == RolledBackAll(old(LayerValues()), newLen)
    {
      hide RolledBack;
      ghost var was := LayerValues();
      for i := 0 to |layers|
        invariant LayersOk(was)
        invariant forall k | 0 <= k < i :: layers[k].Value() == RolledBack(was[k], newLen)
        invariant forall k | i <= k < |layers| :: layers[k].Value() == was[k]
      {
        assert LayerOk(was[i]);
        layers[i].CutTo(newLen);
      }
    }

    method SumHot() returns (sum: nat)
      ensures sum == HotBytes(LayerValues(), d)
    {
      hide EntryBytes;
      ghost var now := LayerValues();
      sum := 0;
      for i := 0 to |layers|
        invariant sum == HotBytes(now[..i], d)
      {
        assert now[..i + 1][..i] == now[..i];
        sum := sum + |layers[i].hotKeys| * EntryBytes(d) * 2;
        SumStep(|layers[i].hotKeys|, d);
      }
      assert now[..|layers|] == now;
    }
  }

  lemma HotOk(l: Layer, e: Entry)
    requires LayerOk(l)
    ensures LayerOk(AppendHot(l, e))
  {
  }

  lemma SpillsOk(layers: seq<Layer>, count: nat)
    requires LayersOk(layers)
    ensures LayersOk(SpilledAll(layers, count))
  {
  }

  lemma CutsOk(layers: seq<Layer>, newLen: nat)
    requires LayersOk(layers)
    ensures LayersOk(RolledBackAll(layers, newLen))
  {
  }

  lemma SumStep(n: nat, d: Dims)
    ensures n * EntryBytes(d) * 2 == n * PairBytes(d)
  {
  }
}
