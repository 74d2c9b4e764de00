/** The paged KV cache as it is written: allocators that change their blocks and free queue, and a map of
    sequences with their block tables. Every method is proved to take the step that `PagedModel` describes. */
module PagedKvCache {
  import opened Arith
  import opened PagedLayer
  import opened PagedModel
  import opened PagedOps
  import opened Wrappers

  datatype ReadResult = Slice(data: seq<real>) | NoSequence(id: SeqId) | OutOfRange(position: nat)

  /** Dropping blocks from the end of one table until `needed` are left. */
  function PopBlocks(blocks: seq<Block>, free: seq<nat>, t: seq<nat>, needed: nat): (seq<Block>, seq<nat>)
    requires forall i | 0 <= i < |t| :: t[i] < |blocks|
    decreases |t|
  {
    if |t| > needed then
      var (b, f) := FreeBlock(blocks, free, Last(t));
      PopBlocks(b, f, t[..|t| - 1], needed)
    else (blocks, free)
  }

  lemma {:induction false} PopBlocksIsPopTo(l: Layer, id: SeqId, needed: nat, d: Dims)
    requires Inv(l, d) && id in l.tables
    requires forall i | 0 <= i < |l.tables[id]| :: l.tables[id][i] < |l.blocks|
    ensures var t := l.tables[id];
      var (blocks, free) := PopBlocks(l.blocks, l.free, t, needed);
      PopTo(l, id, needed, d) == Layer(blocks, free, l.tables[id := if |t| > needed then t[..needed] else t])
    decreases |l.tables[id]|
  {
    hide Inv, OthersSame;
    var t := l.tables[id];
    if |t| > needed {
      DropBlockKeeps(l, id, true, d);
      var l1 := DropBlock(l, id, true);
      PopBlocksIsPopTo(l1, id, needed, d);
      assert t[..|t| - 1][..needed] == t[..needed];
    } else {
      assert l.tables[id := t] == l.tables;
    }
  }

  lemma FreeRange(l: Layer, d: Dims)
    requires Inv(l, d)
    ensures forall i | 0 <= i < |l.free| :: l.free[i] < |l.blocks|
    ensures forall id, i | id in l.tables && 0 <= i < |l.tables[id]| :: l.tables[id][i] !in l.free
    ensures forall i | 1 <= i < |l.free| :: l.free[i] != l.free[0]
    ensures forall b | 0 <= b < |l.blocks| :: BlockOk(l.blocks[b], d)
  {
    forall id, i | id in l.tables && 0 <= i < |l.tables[id]| ensures l.tables[id][i] !in l.free {
      InTable(l, id, l.tables[id][i]);
    }
  }

  lemma WritableLast(l: Layer, id: SeqId, d: Dims)
    requires Inv(l, d) && id in l.tables && l.tables[id] != []
    ensures Last(l.tables[id]) < |l.blocks| && BlockOk(l.blocks[Last(l.tables[id])], d)
  {
    TableRange(l, id, d);
  }

  class BlockAllocator {
    var blocks: seq<Block>
    var freeBlocks: seq<nat>
    const d: Dims

    constructor (maxBlocks: nat, d: Dims)
      ensures this.d == d
      ensures blocks == seq(maxBlocks, _ => ClearBlock(d)) && freeBlocks == seq(maxBlocks, b => b)
    {
      this.d := d;
      blocks := seq(maxBlocks, _ => ClearBlock(d));
      freeBlocks := seq(maxBlocks, b => b);
    }

    method Allocate() returns (r: Option<nat>)
      requires freeBlocks != [] ==> freeBlocks[0] < |blocks|
      modifies this
      ensures old(freeBlocks) == [] ==> r == None && blocks == old(blocks) && freeBlocks == []
      ensures old(freeBlocks) != [] ==>
        r == Some(old(freeBlocks)[0]) && freeBlocks == old(freeBlocks)[1..]
        && blocks == old(blocks)[old(freeBlocks)[0] := ClearBlock(d)]
    {
      if freeBlocks == [] { return None; }
      var b := freeBlocks[0];
      freeBlocks := freeBlocks[1..];
      blocks := blocks[b := ClearBlock(d)];
      r := Some(b);
    }

    method Free(b: nat)
      requires b < |blocks|
      modifies this
      ensures (blocks, freeBlocks) == FreeBlock(old(blocks), old(freeBlocks), b)
      ensures old(blocks)[b].refCount <= 1 ==>
        blocks == old(blocks)[b := old(blocks)[b].(refCount := 0)] && freeBlocks == old(freeBlocks) + [b]
      ensures old(blocks)[b].refCount > 1 ==>
        && blocks == old(blocks)[b := old(blocks)[b].(refCount := old(blocks)[b].refCount - 1)]
        && freeBlocks == old(freeBlocks)
    {
      var r := if blocks[b].refCount == 0 then 0 else blocks[b].refCount - 1;
      blocks := blocks[b := blocks[b].(refCount := r)];
      if r == 0 {
        freeBlocks := freeBlocks + [b];
      }
    }

    method IncRef(b: nat)
      requires b < |blocks|
      modifies this
      ensures freeBlocks == old(freeBlocks)
      ensures blocks == old(blocks)[b := old(blocks)[b].(refCount := old(blocks)[b].refCount + 1)]
    {
      blocks := blocks[b := blocks[b].(refCount := blocks[b].refCount + 1)];
    }

    /** The block itself if it is not shared, else a copy in a free block; `None` when there is no free block. */
    method CopyOnWrite(b: nat) returns (r: Option<nat>)
      requires b < |blocks| && b !in freeBlocks && (freeBlocks != [] ==> freeBlocks[0] < |blocks|)
      modifies this
      ensures old(blocks)[b].refCount <= 1 ==> r == Some(b) && blocks == old(blocks) && freeBlocks == old(freeBlocks)
      ensures old(blocks)[b].refCount > 1 && old(freeBlocks) == [] ==>
        r == None && blocks == old(blocks) && freeBlocks == old(freeBlocks)
      ensures old(blocks)[b].refCount > 1 && old(freeBlocks) != [] ==>
        var n, src := old(freeBlocks)[0], old(blocks)[b];
        r == Some(n) && freeBlocks == old(freeBlocks)[1..]
        && blocks == old(blocks)[n := src.(refCount := 1)][b := src.(refCount := src.refCount - 1)]
    {
      if blocks[b].refCount <= 1 { return Some(b); }
      var taken := Allocate();
      if taken == None { return None; }
      var n, src := taken.value, blocks[b];
      blocks := blocks[n := blocks[n].(keys := src.keys, values := src.values, numFilled := src.numFilled)];
      blocks := blocks[b := blocks[b].(refCount := blocks[b].refCount - 1)];
      r := Some(n);
    }

    /** Give a block table a last block that may be written: a new, copied or private one. `l` is this
        allocator as the layer of which `table` is the table of `id`. */
    method PrepareTable(table: seq<nat>, ghost l: Layer, ghost id: SeqId) returns (ok: bool, t: seq<nat>)
      requires Inv(l, d) && id in l.tables && l.tables[id] == table
      requires l.blocks == blocks && l.free == freeBlocks
      modifies this
      ensures Prepared(l, id, d) == (Layer(blocks, freeBlocks, l.tables[id := t]), ok)
    {
      hide Inv, OthersSame, ViewOf;
      t := table;
      assert l.tables[id := table] == l.tables;
      TableRange(l, id, d);
      FreeRange(l, d);
      var needNewBlock := table == [] || blocks[Last(table)].numFilled >= d.blockSize;
      if needNewBlock {
        var b := Allocate();
        if b == None { return false, table; }
        t := t + [b.value];
      }
      var writable := CopyOnWrite(Last(t));
      if writable == None { return false, table; }
      if writable.value != Last(t) {
        t := t[..|t| - 1] + [writable.value];
      }
      ok := true;
    }

    /** Store an entry behind a block table, in its last block once that is prepared. */
    method AppendEntry(table: seq<nat>, e: Entry, ghost l: Layer, ghost id: SeqId) returns (ok: bool, t: seq<nat>)
      requires Inv(l, d) && id in l.tables && l.tables[id] == table && |e.key| == |e.value| == d.kvDim
      requires l.blocks == blocks && l.free == freeBlocks
      modifies this
      ensures AppendLayer(l, id, e, d) == (Layer(blocks, freeBlocks, l.tables[id := t]), ok)
    {
      hide Inv, OthersSame, ViewOf, Prepared, View, TableOk, Counted;
      PreparedKeeps(l, id, d);
      ok, t := PrepareTable(table, l, id);
      if ok {
        WritableLast(Layer(blocks, freeBlocks, l.tables[id := t]), id, d);
        var b := Last(t);
        blocks := blocks[b := AppendToBlock(blocks[b], e, d)];
      }
    }

    /** Count one more table for each listed block. */
    method IncRefs(ids: seq<nat>)
      requires forall i | 0 <= i < |ids| :: ids[i] < |blocks|
      modifies this
      ensures blocks == IncAll(old(blocks), ids) && freeBlocks == old(freeBlocks)
    {
      for i := 0 to |ids|
        invariant blocks == IncAll(old(blocks), ids[..i]) && freeBlocks == old(freeBlocks)
      {
        assert ids[..i + 1][..i] == ids[..i];
        IncRef(ids[i]);
      }
      assert ids[..|ids|] == ids;
    }

    /** Free every listed block, in order. */
    method FreeBlocks(ids: seq<nat>)
      requires forall i | 0 <= i < |ids| :: ids[i] < |blocks|
      modifies this
      ensures (blocks, freeBlocks) == FreeAll(old(blocks), old(freeBlocks), ids)
    {
      for i := 0 to |ids|
        invariant (blocks, freeBlocks) == FreeAll(old(blocks), old(freeBlocks), ids[..i])
      {
        assert ids[..i + 1][..i] == ids[..i];
        Free(ids[i]);
      }
      assert ids[..|ids|] == ids;
    }

    /** Pop and free table entries from the end, then set the fill count of the last one left. */
    method TruncateTable(table: seq<nat>, needed: nat, slotsInLast: nat) returns (t: seq<nat>)
      requires forall i | 0 <= i < |table| :: table[i] < |blocks|
      modifies this
      ensures t == if |table| > needed then table[..needed] else table
      ensures var (b, f) := PopBlocks(old(blocks), old(freeBlocks), table, needed);
        && freeBlocks == f
        && (t == [] ==> blocks == b)
        && (t != [] ==> Last(t) < |b| && blocks == b[Last(t) := b[Last(t)].(numFilled := slotsInLast)])
    {
      t := table;
      while |t| > needed
        invariant |blocks| == |old(blocks)| && |t| <= |table| && t == table[..|t|]
        invariant |t| == |table| || |t| >= needed
        invariant PopBlocks(blocks, freeBlocks, t, needed) == PopBlocks(old(blocks), old(freeBlocks), table, needed)
      {
        Free(Last(t));
        t := t[..|t| - 1];
      }
      if t != [] {
        var b := Last(t);
        blocks := blocks[b := blocks[b].(numFilled := slotsInLast)];
      }
    }
  }

  datatype PagedSequence = PagedSequence(blockTables: seq<seq<nat>>, seqLen: nat)

  datatype Pool = Pool(blocks: seq<Block>, free: seq<nat>)

  // ---------- the fields of the cache as a value ----------

  predicate TablesPerLayer(sequences: map<SeqId, PagedSequence>, n: nat) {
    forall id | id in sequences :: |sequences[id].blockTables| == n
  }

  function Tables(sequences: map<SeqId, PagedSequence>, n: nat, i: nat): map<SeqId, seq<nat>>
    requires i < n && TablesPerLayer(sequences, n)
  {
    map id | id in sequences :: sequences[id].blockTables[i]
  }

  function Lens(sequences: map<SeqId, PagedSequence>): map<SeqId, nat> {
    map id | id in sequences :: sequences[id].seqLen
  }

  function MakeCache(pools: seq<Pool>, sequences: map<SeqId, PagedSequence>, nextSeqId: SeqId): (c: Cache)
    requires TablesPerLayer(sequences, |pools|)
    ensures |c.layers| == |pools| && c.lens.Keys == sequences.Keys
  {
    Cache(seq(|pools|, i requires 0 <= i < |pools| =>
            Layer(pools[i].blocks, pools[i].free, Tables(sequences, |pools|, i))),
          Lens(sequences), nextSeqId)
  }

  lemma WithNewTable(pools: seq<Pool>, sequences: map<SeqId, PagedSequence>, next: SeqId,
                     id: SeqId, layer: nat, pool: Pool, table: seq<nat>)
    requires TablesPerLayer(sequences, |pools|) && id in sequences && layer < |pools|
    ensures var c, s := MakeCache(pools, sequences, next), sequences[id];
      var sequences' := sequences[id := s.(blockTables := s.blockTables[layer := table])];
      TablesPerLayer(sequences', |pools|)
      && MakeCache(pools[layer := pool], sequences', next)
         == c.(layers := c.layers[layer := Layer(pool.blocks, pool.free, c.layers[layer].tables[id := table])])
  {
    var c, s := MakeCache(pools, sequences, next), sequences[id];
    var sequences' := sequences[id := s.(blockTables := s.blockTables[layer := table])];
    var c' := MakeCache(pools[layer := pool], sequences', next);
    forall i | 0 <= i < |pools|
      ensures c'.layers[i].tables == if i == layer then c.layers[i].tables[id := table] else c.layers[i].tables
    {
    }
    assert c'.lens == c.lens;
  }

  /** A new sequence whose tables are `tables` and whose length is `len`. */
  lemma WithNewSequence(pools: seq<Pool>, pools': seq<Pool>, sequences: map<SeqId, PagedSequence>, next: SeqId,
                        s: PagedSequence)
    requires TablesPerLayer(sequences, |pools|) && |pools'| == |pools| == |s.blockTables|
    ensures var c := MakeCache(pools, sequences, next);
      TablesPerLayer(sequences[next := s], |pools|)
      && MakeCache(pools', sequences[next := s], next + 1)
         == Cache(seq(|pools|, i requires 0 <= i < |pools| =>
                    Layer(pools'[i].blocks, pools'[i].free, c.layers[i].tables[next := s.blockTables[i]])),
                  c.lens[next := s.seqLen], next + 1)
  {
    var c, c' := MakeCache(pools, sequences, next), MakeCache(pools', sequences[next := s], next + 1);
    forall i | 0 <= i < |pools| ensures c'.layers[i].tables == c.layers[i].tables[next := s.blockTables[i]] {
    }
    assert c'.lens == c.lens[next := s.seqLen];
  }

  lemma WithoutSequence(pools: seq<Pool>, pools': seq<Pool>, sequences: map<SeqId, PagedSequence>, next: SeqId,
                        id: SeqId)
    requires TablesPerLayer(sequences, |pools|) && |pools'| == |pools|
    ensures var c := MakeCache(pools, sequences, next);
      TablesPerLayer(sequences - {id}, |pools|)
      && MakeCache(pools', sequences - {id}, next)
         == Cache(seq(|pools|, i requires 0 <= i < |pools| =>
                    Layer(pools'[i].blocks, pools'[i].free, c.layers[i].tables - {id})),
                  c.lens - {id}, next)
  {
    var c, c' := MakeCache(pools, sequences, next), MakeCache(pools', sequences - {id}, next);
    forall i | 0 <= i < |pools| ensures c'.layers[i].tables == c.layers[i].tables - {id} {
    }
    assert c'.lens == c.lens - {id};
  }

  /** All tables of one sequence replaced. */
  lemma WithTables(pools: seq<Pool>, pools': seq<Pool>, sequences: map<SeqId, PagedSequence>, next: SeqId,
                   id: SeqId, s: PagedSequence)
    requires TablesPerLayer(sequences, |pools|) && |pools'| == |pools| == |s.blockTables| && id in sequences
    ensures var c := MakeCache(pools, sequences, next);
      TablesPerLayer(sequences[id := s], |pools|)
      && MakeCache(pools', sequences[id := s], next)
         == Cache(seq(|pools|, i requires 0 <= i < |pools| =>
                    Layer(pools'[i].blocks, pools'[i].free, c.layers[i].tables[id := s.blockTables[i]])),
                  c.lens[id := s.seqLen], next)
  {
    var c, c' := MakeCache(pools, sequences, next), MakeCache(pools', sequences[id := s], next);
    forall i | 0 <= i < |pools| ensures c'.layers[i].tables == c.layers[i].tables[id := s.blockTables[i]] {
    }
    assert c'.lens == c.lens[id := s.seqLen];
  }

  lemma LayerInv(c: Cache, i: nat, d: Dims)
    requires CacheInv(c, d) && i < |c.layers|
    ensures Inv(c.layers[i], d) && c.layers[i].tables.Keys == c.lens.Keys
  {
  }

  ghost function PoolsOf(allocators: seq<BlockAllocator>): (r: seq<Pool>)
    reads allocators
    ensures |r| == |allocators|
  {
    seq(|allocators|, i requires 0 <= i < |allocators| reads allocators =>
      Pool(allocators[i].blocks, allocators[i].freeBlocks))
  }

  class PagedKvCache {
    var allocators: seq<BlockAllocator>
    var sequences: map<SeqId, PagedSequence>
    var nextSeqId: SeqId
    const nKvHeads: nat
    const headDim: nat
    const d: Dims

    /** One allocator object per layer, and a block table per layer for each sequence. */
    ghost predicate Shape()
      reads this, allocators
    {
      && d.kvDim == nKvHeads * headDim
      && (forall i, j | 0 <= i < j < |allocators| :: allocators[i] != allocators[j])
      && (forall i | 0 <= i < |allocators| :: allocators[i].d == d)
      && TablesPerLayer(sequences, |allocators|)
    }

    ghost function Pools(): (r: seq<Pool>)
      reads this, allocators
      ensures |r| == |allocators|
    {
      PoolsOf(allocators)
    }

    ghost function State(): Cache
      requires Shape()
      reads this, allocators
    {
      MakeCache(Pools(), sequences, nextSeqId)
    }

    ghost predicate Valid()
      reads this, allocators
    {
      Shape() && CacheInv(State(), d)
    }

    constructor (nLayers: nat, nKvHeads: nat, headDim: nat, blockSize: nat, maxBlocksPerLayer: nat)
      requires blockSize > 0
      ensures Valid() && d == Dims(blockSize, nKvHeads * headDim) && fresh(allocators)
      ensures State() == Init(nLayers, maxBlocksPerLayer, d)
    {
      this.nKvHeads := nKvHeads;
      this.headDim := headDim;
      this.d := Dims(blockSize, nKvHeads * headDim);
      sequences := map[];
      nextSeqId := 0;
      allocators := [];
      new;
      var made: seq<BlockAllocator> := [];
      for i := 0 to nLayers
        invariant |made| == i && fresh(made)
        invariant forall j, k | 0 <= j < k < i :: made[j] != made[k]
        invariant forall j | 0 <= j < i :: made[j].d == d
        invariant forall j | 0 <= j < i :: made[j].blocks == seq(maxBlocksPerLayer, _ => ClearBlock(d))
        invariant forall j | 0 <= j < i :: made[j].freeBlocks == seq(maxBlocksPerLayer, b => b)
        invariant sequences == map[] && nextSeqId == 0
      {
        var a := new BlockAllocator(maxBlocksPerLayer, d);
        made := made + [a];
      }
      allocators := made;
      InitInv(nLayers, maxBlocksPerLayer, d);
      assert State().layers == Init(nLayers, maxBlocksPerLayer, d).layers;
    }

    method AddSequence() returns (out: Outcome)
      requires Valid()
      modifies this
      ensures Valid() && allocators == old(allocators)
      ensures (State(), out) == Step(old(State()), Add, d)
      ensures out.NewSequence? && out.id !in old(sequences) && sequences.Keys == old(sequences.Keys) + {out.id}
    {
      NextIdFresh();
      hide CacheInv, Abs;
      ghost var c := State();
      AddRefines(c, d);
      out := NewSequence(nextSeqId);
      var s := PagedSequence(seq(|allocators|, _ => []), 0);
      WithNewSequence(Pools(), Pools(), sequences, nextSeqId, s);
      sequences := sequences[nextSeqId := s];
      nextSeqId := nextSeqId + 1;
      assert Pools() == old(Pools());
      assert State().layers == Added(c).layers;
    }

    method Append(id: SeqId, layer: nat, key: seq<real>, value: seq<real>) returns (out: Outcome)
      requires Valid() && layer < |allocators| && |key| == |value| == nKvHeads * headDim
      modifies this, allocators
      ensures Valid() && allocators == old(allocators)
      ensures (State(), out) == Step(old(State()), PagedModel.Append(id, layer, Entry(key, value)), d)
    {
      hide CacheInv, Abs, MakeCache, Inv, AppendLayer;
      if id !in sequences { return UnknownSequence(id); }
      ghost var c := State();
      AppendRefines(c, id, layer, Entry(key, value), d);
      LayerInv(c, layer, d);
      LayerIs(layer);
      var s := sequences[id];
      var ok, table := allocators[layer].AppendEntry(s.blockTables[layer], Entry(key, value), c.layers[layer], id);
      ghost var pool := Pool(allocators[layer].blocks, allocators[layer].freeBlocks);
      WithNewTable(old(Pools()), sequences, nextSeqId, id, layer, pool, table);
      sequences := sequences[id := s.(blockTables := s.blockTables[layer := table])];
      assert Pools() == old(Pools())[layer := pool];
      out := if ok then Done else OutOfBlocks;
    }

    lemma LayerIs(i: nat)
      requires Shape() && i < |allocators|
      ensures i < |State().layers| && State().layers[i].blocks == allocators[i].blocks
      ensures State().layers[i].free == allocators[i].freeBlocks && State().layers[i].tables.Keys == sequences.Keys
      ensures forall id | id in sequences :: State().layers[i].tables[id] == sequences[id].blockTables[i]
    {
    }

    method IncrementSeqLen(id: SeqId) returns (out: Outcome)
      requires Valid()
      modifies this
      ensures Valid() && allocators == old(allocators)
      ensures (State(), out) == Step(old(State()), Increment(id), d)
    {
      hide CacheInv, Abs, Inv;
      if id !in sequences { return UnknownSequence(id); }
      ghost var c := State();
      IncrementRefines(c, id, d);
      var s := sequences[id];
      WithTables(Pools(), Pools(), sequences, nextSeqId, id, s.(seqLen := s.seqLen + 1));
      sequences := sequences[id := s.(seqLen := s.seqLen + 1)];
      assert Pools() == old(Pools());
      assert State().layers == c.layers by {
        forall i | 0 <= i < |c.layers| ensures c.layers[i].tables[id := s.blockTables[i]] == c.layers[i].tables {
        }
      }
      out := Done;
    }

    /** What is stored in the slot of a position; behind the list that is whatever the slot held before. */
    ghost function Stored(id: SeqId, layer: nat, position: nat): Entry
      requires Valid() && layer < |allocators| && id in sequences
      requires position / d.blockSize < |sequences[id].blockTables[layer]|
      reads this, allocators
    {
      Lookup(State().layers[layer].blocks, State().layers[layer].tables[id], position, d)
    }

    lemma HeadInside(h: nat)
      requires Shape() && h < nKvHeads
      ensures 0 <= h * headDim <= h * headDim + headDim <= d.kvDim
    {
      MulStep(h, nKvHeads, headDim);
    }

    /** Where a read finds its entry. */
    lemma ReadAt(id: SeqId, layer: nat, position: nat)
      requires Valid() && layer < |allocators| && id in sequences
      ensures Shape() && d.blockSize > 0
      ensures var t, i := sequences[id].blockTables[layer], position / d.blockSize;
        && (i < |t| ==>
              && t[i] < |allocators[layer].blocks| && BlockOk(allocators[layer].blocks[t[i]], d)
              && Stored(id, layer, position) == EntryAt(allocators[layer].blocks[t[i]], position % d.blockSize, d))
        && (position < |Lists(State(), id, d)[layer]| ==>
              i < |t| && Lists(State(), id, d)[layer][position] == Stored(id, layer, position))
    {
      hide Abs, CacheInv, Inv, MakeCache, ViewOf;
      LayerIs(layer);
      LayerInv(State(), layer, d);
      ReadBounds(State().layers[layer], id, position, d);
    }

    /** The slice of one head at a position, as attention reads it. An error is returned exactly for an unknown
        sequence or a position behind the last block; any other position gives the slot of that position, which
        inside the list of the sequence holds its own appended vector. */
    method KeyAt(id: SeqId, layer: nat, position: nat, kvHead: nat) returns (r: ReadResult)
      requires Valid() && layer < |allocators| && kvHead < nKvHeads
      ensures 0 <= kvHead * headDim <= kvHead * headDim + headDim <= d.kvDim
      ensures r == NoSequence(id) <==> id !in sequences
      ensures id in sequences ==>
        (r == OutOfRange(position) <==> |sequences[id].blockTables[layer]| <= position / d.blockSize)
      ensures id in sequences && position / d.blockSize < |sequences[id].blockTables[layer]| ==>
        r == Slice(Stored(id, layer, position).key[kvHead * headDim .. kvHead * headDim + headDim])
      ensures id in sequences && position < |Lists(State(), id, d)[layer]| ==>
        && |Lists(State(), id, d)[layer][position].key| == d.kvDim
        && r == Slice(Lists(State(), id, d)[layer][position].key[kvHead * headDim .. kvHead * headDim + headDim])
    {
      HeadInside(kvHead);
      hide Valid, State, Lists, Stored, HeadSlice, Row;
      if id !in sequences { return NoSequence(id); }
      ReadAt(id, layer, position);
      var table := sequences[id].blockTables[layer];
      if position / d.blockSize >= |table| { return OutOfRange(position); }
      var b, slot := allocators[layer].blocks[table[position / d.blockSize]], position % d.blockSize;
      r := Slice(HeadSlice(b.keys, slot, kvHead, nKvHeads, headDim, d));
    }

    method ValueAt(id: SeqId, layer: nat, position: nat, kvHead: nat) returns (r: ReadResult)
      requires Valid() && layer < |allocators| && kvHead < nKvHeads
      ensures 0 <= kvHead * headDim <= kvHead * headDim + headDim <= d.kvDim
      ensures r == NoSequence(id) <==> id !in sequences
      ensures id in sequences ==>
        (r == OutOfRange(position) <==> |sequences[id].blockTables[layer]| <= position / d.blockSize)
      ensures id in sequences && position / d.blockSize < |sequences[id].blockTables[layer]| ==>
        r == Slice(Stored(id, layer, position).value[kvHead * headDim .. kvHead * headDim + headDim])
      ensures id in sequences && position < |Lists(State(), id, d)[layer]| ==>
        && |Lists(State(), id, d)[layer][position].value| == d.kvDim
        && r == Slice(Lists(State(), id, d)[layer][position].value[kvHead * headDim .. kvHead * headDim + headDim])
    {
      HeadInside(kvHead);
      hide Valid, State, Lists, Stored, HeadSlice, Row;
      if id !in sequences { return NoSequence(id); }
      ReadAt(id, layer, position);
      var table := sequences[id].blockTables[layer];
      if position / d.blockSize >= |table| { return OutOfRange(position); }
      var b, slot := allocators[layer].blocks[table[position / d.blockSize]], position % d.blockSize;
      r := Slice(HeadSlice(b.values, slot, kvHead, nKvHeads, headDim, d));
    }

    /** The layers of the state, field by field. */
    lemma StateParts()
      requires Shape()
      ensures |State().layers| == |allocators| && State().lens == Lens(sequences) && State().nextId == nextSeqId
      ensures forall i | 0 <= i < |allocators| :: State().layers[i].blocks == allocators[i].blocks
      ensures forall i | 0 <= i < |allocators| :: State().layers[i].free == allocators[i].freeBlocks
      ensures forall i | 0 <= i < |allocators| :: State().layers[i].tables == Tables(sequences, |allocators|, i)
    {
    }

    lemma NextIdFresh()
      requires Valid()
      ensures nextSeqId !in sequences
    {
      hide Inv;
      SameSequences();
    }

    lemma SameSequences()
      requires Shape()
      ensures State().lens.Keys == sequences.Keys
    {
    }

    /** The tables of a sequence hold only block ids of the pools. */
    ghost predicate InPools(tables: seq<seq<nat>>)
      reads this, allocators
    {
      |tables| == |allocators| &&
      forall i, j | 0 <= i < |tables| && 0 <= j < |tables[i]| :: tables[i][j] < |allocators[i].blocks|
    }

    lemma TablesInPools(id: SeqId)
      requires Valid() && id in sequences
      ensures InPools(sequences[id].blockTables)
    {
      hide CacheInv, Inv, MakeCache;
      StateParts();
      forall i | 0 <= i < |allocators|
        ensures forall j | 0 <= j < |sequences[id].blockTables[i]| ::
          sequences[id].blockTables[i][j] < |allocators[i].blocks|
      {
        LayerInv(State(), i, d);
        TableRange(State().layers[i], id, d);
      }
    }

    method IncRefsOf(tables: seq<seq<nat>>)
      requires Shape() && InPools(tables)
      modifies allocators
      ensures forall k | 0 <= k < |allocators| ::
        allocators[k].freeBlocks == old(allocators[k].freeBlocks) && InRange(tables[k], old(allocators[k].blocks))
        && allocators[k].blocks == IncAll(old(allocators[k].blocks), tables[k])
    {
      for i := 0 to |allocators|
        invariant forall k | 0 <= k < i :: allocators[k].blocks == IncAll(old(allocators[k].blocks), tables[k])
        invariant forall k | 0 <= k < i :: allocators[k].freeBlocks == old(allocators[k].freeBlocks)
        invariant forall k | i <= k < |allocators| :: allocators[k].blocks == old(allocators[k].blocks)
        invariant forall k | i <= k < |allocators| :: allocators[k].freeBlocks == old(allocators[k].freeBlocks)
      {
        allocators[i].IncRefs(tables[i]);
      }
    }

    method FreeTables(tables: seq<seq<nat>>)
      requires Shape() && InPools(tables)
      modifies allocators
      ensures forall k | 0 <= k < |allocators| ::
        InRange(tables[k], old(allocators[k].blocks)) && (allocators[k].blocks, allocators[k].freeBlocks)
        == FreeAll(old(allocators[k].blocks), old(allocators[k].freeBlocks), tables[k])
    {
      for i := 0 to |allocators|
        invariant forall k | 0 <= k < i ::
          (allocators[k].blocks, allocators[k].freeBlocks)
          == FreeAll(old(allocators[k].blocks), old(allocators[k].freeBlocks), tables[k])
        invariant forall k | i <= k < |allocators| :: allocators[k].blocks == old(allocators[k].blocks)
        invariant forall k | i <= k < |allocators| :: allocators[k].freeBlocks == old(allocators[k].freeBlocks)
      {
        allocators[i].FreeBlocks(tables[i]);
      }
    }

    method TruncateTables(tables: seq<seq<nat>>, needed: nat, slots: nat) returns (ts: seq<seq<nat>>)
      requires Shape() && InPools(tables)
      modifies allocators
      ensures |ts| == |tables|
      ensures forall k | 0 <= k < |allocators| ::
        InRange(tables[k], old(allocators[k].blocks)) &&
        TruncatedTo(old(allocators[k].blocks), old(allocators[k].freeBlocks), tables[k], needed, slots,
                    allocators[k].blocks, allocators[k].freeBlocks, ts[k])
    {
      hide PopBlocks;
      ts := [];
      for i := 0 to |allocators|
        invariant |ts| == i
        invariant forall k | 0 <= k < i ::
          TruncatedTo(old(allocators[k].blocks), old(allocators[k].freeBlocks), tables[k], needed, slots,
                      allocators[k].blocks, allocators[k].freeBlocks, ts[k])
        invariant forall k | i <= k < |allocators| :: allocators[k].blocks == old(allocators[k].blocks)
        invariant forall k | i <= k < |allocators| :: allocators[k].freeBlocks == old(allocators[k].freeBlocks)
      {
        var t := allocators[i].TruncateTable(tables[i], needed, slots);
        ts := ts + [t];
      }
    }

    method ForkSequence(id: SeqId) returns (out: Outcome)
      requires Valid()
      modifies this, allocators
      ensures Valid() && allocators == old(allocators)
      ensures (State(), out) == Step(old(State()), Fork(id), d)
      ensures out.NewSequence? <==> id in old(sequences)
      ensures out.NewSequence? ==> out.id !in old(sequences) && sequences.Keys == old(sequences.Keys) + {out.id}
    {
      hide CacheInv, Abs, Inv, MakeCache, ForkLayer, IncAll, InPools, Forked, Lens, Tables, Step;
      NextIdFresh();
      StateParts();
      SameSequences();
      ghost var c := State();
      ForkStep(c, id, d);
      if id !in sequences { return UnknownSequence(id); }
      ForkRefines(c, id, d);
      TablesInPools(id);
      var s := sequences[id];
      IncRefsOf(s.blockTables);
      ghost var pools := Pools();
      ForkedCache(old(Pools()), pools, sequences, nextSeqId, id, d);
      out := NewSequence(nextSeqId);
      sequences := sequences[nextSeqId := s];
      nextSeqId := nextSeqId + 1;
      assert Pools() == pools;
    }

    method RemoveSequence(id: SeqId) returns (out: Outcome)
      requires Valid()
      modifies this, allocators
      ensures Valid() && allocators == old(allocators)
      ensures (State(), out) == Step(old(State()), Remove(id), d)
    {
      hide CacheInv, Abs, Inv, MakeCache, RemoveLayer, InPools;
      if id !in sequences { return UnknownSequence(id); }
      ghost var c := State();
      RemoveRefines(c, id, d);
      StateParts();
      TablesInPools(id);
      var s := sequences[id];
      FreeTables(s.blockTables);
      ghost var pools := Pools();
      WithoutSequence(old(Pools()), pools, sequences, nextSeqId, id);
      RemovedIs(c, pools, id, s.blockTables, d);
      sequences := sequences - {id};
      assert Pools() == pools;
      assert State() == Removed(c, id, d);
      out := Done;
    }

    method Rollback(id: SeqId, newLen: nat) returns (out: Outcome)
      requires Valid()
      modifies this, allocators
      ensures Valid() && allocators == old(allocators)
      ensures (State(), out) == Step(old(State()), PagedModel.Rollback(id, newLen), d)
    {
      hide CacheInv, Abs, Inv, MakeCache, InPools, RollbackLayer;
      if id !in sequences { return UnknownSequence(id); }
      ghost var c := State();
      StateParts();
      var s := sequences[id];
      if newLen >= s.seqLen { return Done; }
      BlockSizePositive(c, d);
      TablesInPools(id);
      var tables := TruncateTables(s.blockTables, BlocksNeeded(newLen, d), SlotsInLast(newLen, d));
      ghost var pools := Pools();
      WithTables(old(Pools()), pools, sequences, nextSeqId, id, PagedSequence(tables, newLen));
      RolledBackIs(c, pools, id, newLen, s.blockTables, tables, d);
      sequences := sequences[id := PagedSequence(tables, newLen)];
      assert Pools() == pools;
      assert State() == RolledBack(c, id, newLen, d);
      RollbackKeepsInv(c, id, newLen, d);
      out := Done;
    }
  }

  predicate InRange(t: seq<nat>, blocks: seq<Block>) {
    forall i | 0 <= i < |t| :: t[i] < |blocks|
  }

  /** The effect of `BlockAllocator.TruncateTable`. */
  predicate TruncatedTo(blocks: seq<Block>, free: seq<nat>, table: seq<nat>, needed: nat, slots: nat,
                        blocks': seq<Block>, free': seq<nat>, t: seq<nat>)
    requires InRange(table, blocks)
  {
    var (b, f) := PopBlocks(blocks, free, table, needed);
    && t == (if |table| > needed then table[..needed] else table)
    && free' == f
    && (if t == [] then blocks' == b
        else Last(t) < |b| && blocks' == b[Last(t) := b[Last(t)].(numFilled := slots)])
  }

  lemma ForkStep(c: Cache, id: SeqId, d: Dims)
    requires CacheInv(c, d)
    ensures Step(c, Fork(id), d) ==
      if id in c.lens then (Forked(c, id, d), NewSequence(c.nextId)) else (c, UnknownSequence(id))
  {
  }

  lemma ForkedIs(c: Cache, pools: seq<Pool>, id: SeqId, tables: seq<seq<nat>>, d: Dims)
    requires CacheInv(c, d) && id in c.lens && |pools| == |tables| == |c.layers|
    requires forall i | 0 <= i < |c.layers| :: id in c.layers[i].tables && c.layers[i].tables[id] == tables[i]
    requires forall i | 0 <= i < |c.layers| ::
      && InRange(tables[i], c.layers[i].blocks)
      && pools[i] == Pool(IncAll(c.layers[i].blocks, tables[i]), c.layers[i].free)
    ensures Forked(c, id, d) ==
      Cache(seq(|pools|, i requires 0 <= i < |pools| =>
              Layer(pools[i].blocks, pools[i].free, c.layers[i].tables[c.nextId := tables[i]])),
            c.lens[c.nextId := c.lens[id]], c.nextId + 1)
  {
    hide CacheInv, Inv;
  }

  /** The fields after a fork: one more reference for every block of `id`, and its tables a second time. */
  lemma ForkedCache(pools: seq<Pool>, pools': seq<Pool>, sequences: map<SeqId, PagedSequence>, next: SeqId,
                    id: SeqId, d: Dims)
    requires TablesPerLayer(sequences, |pools|) && id in sequences && |pools'| == |pools|
    requires CacheInv(MakeCache(pools, sequences, next), d)
    requires forall i | 0 <= i < |pools| ::
      && InRange(sequences[id].blockTables[i], pools[i].blocks)
      && pools'[i] == Pool(IncAll(pools[i].blocks, sequences[id].blockTables[i]), pools[i].free)
    ensures TablesPerLayer(sequences[next := sequences[id]], |pools|)
    ensures MakeCache(pools', sequences[next := sequences[id]], next + 1)
      == Forked(MakeCache(pools, sequences, next), id, d)
  {
    hide CacheInv, Inv, Forked;
    var c := MakeCache(pools, sequences, next);
    WithNewSequence(pools, pools', sequences, next, sequences[id]);
    ForkedIs(c, pools', id, sequences[id].blockTables, d);
  }

  lemma RemovedIs(c: Cache, pools: seq<Pool>, id: SeqId, tables: seq<seq<nat>>, d: Dims)
    requires CacheInv(c, d) && id in c.lens && |pools| == |tables| == |c.layers|
    requires forall i | 0 <= i < |c.layers| :: id in c.layers[i].tables && c.layers[i].tables[id] == tables[i]
    requires forall i | 0 <= i < |c.layers| ::
      && InRange(tables[i], c.layers[i].blocks)
      && (pools[i].blocks, pools[i].free) == FreeAll(c.layers[i].blocks, c.layers[i].free, tables[i])
    ensures Removed(c, id, d) ==
      Cache(seq(|pools|, i requires 0 <= i < |pools| =>
              Layer(pools[i].blocks, pools[i].free, c.layers[i].tables - {id})),
            c.lens - {id}, c.nextId)
  {
    hide CacheInv, Inv;
  }

  lemma RolledBackIs(c: Cache, pools: seq<Pool>, id: SeqId, newLen: nat,
                     tables: seq<seq<nat>>, ts: seq<seq<nat>>, d: Dims)
    requires CacheInv(c, d) && id in c.lens && |pools| == |tables| == |ts| == |c.layers| && d.blockSize > 0
    requires forall i | 0 <= i < |c.layers| :: id in c.layers[i].tables && c.layers[i].tables[id] == tables[i]
    requires forall i | 0 <= i < |c.layers| ::
      && InRange(tables[i], c.layers[i].blocks)
      && TruncatedTo(c.layers[i].blocks, c.layers[i].free, tables[i], BlocksNeeded(newLen, d), SlotsInLast(newLen, d),
                     pools[i].blocks, pools[i].free, ts[i])
    ensures RolledBack(c, id, newLen, d) ==
      Cache(seq(|pools|, i requires 0 <= i < |pools| =>
              Layer(pools[i].blocks, pools[i].free, c.layers[i].tables[id := ts[i]])),
            c.lens[id := newLen], c.nextId)
  {
    hide CacheInv, Inv, OthersSame;
    forall i | 0 <= i < |c.layers|
      ensures RolledBack(c, id, newLen, d).layers[i]
        == Layer(pools[i].blocks, pools[i].free, c.layers[i].tables[id := ts[i]])
    {
      LayerInv(c, i, d);
      PopBlocksIsPopTo(c.layers[i], id, BlocksNeeded(newLen, d), d);
    }
  }

  lemma BlockSizePositive(c: Cache, d: Dims)
    requires CacheInv(c, d)
    ensures d.blockSize > 0
  {
  }

  lemma ReadBounds(l: Layer, id: SeqId, p: nat, d: Dims)
    requires Inv(l, d) && id in l.tables
    ensures d.blockSize > 0
    ensures forall i | 0 <= i < |l.tables[id]| :: l.tables[id][i] < |l.blocks| && BlockOk(l.blocks[l.tables[id][i]], d)
    ensures p < |ViewOf(l, id, d)| ==> p / d.blockSize < |l.tables[id]|
    ensures p < |ViewOf(l, id, d)| ==>
      ViewOf(l, id, d)[p] == EntryAt(l.blocks[l.tables[id][p / d.blockSize]], p % d.blockSize, d)
  {
    TableRange(l, id, d);
    ReadLookup(l.blocks, l.tables[id], p, d);
  }

  lemma ReadLookup(blocks: seq<Block>, t: seq<nat>, p: nat, d: Dims)
    requires TableOk(blocks, t, d)
    ensures p < |View(blocks, t, d)| ==> p / d.blockSize < |t|
    ensures p < |View(blocks, t, d)| ==>
      View(blocks, t, d)[p] == EntryAt(blocks[t[p / d.blockSize]], p % d.blockSize, d)
  {
    if p < |View(blocks, t, d)| {
      PositionInTable(p, |t|, blocks[Last(t)].numFilled, d);
    }
  }

  /** The slice of head `h` in slot `s` of a block: that part of the row stored there. */
  function HeadSlice(flat: seq<real>, s: nat, h: nat, heads: nat, headDim: nat, d: Dims): (r: seq<real>)
    requires |flat| == d.blockSize * d.kvDim && s < d.blockSize && h < heads && d.kvDim == heads * headDim
    ensures 0 <= h * headDim <= h * headDim + headDim <= d.kvDim
    ensures r == Row(flat, s, d)[h * headDim .. h * headDim + headDim]
  {
    RowFits(s, d);
    MulStep(h, heads, headDim);
    SliceOfSlice(flat, s * d.kvDim, d.kvDim, h * headDim, headDim);
    var offset := s * d.kvDim + h * headDim;
    flat[offset .. offset + headDim]
  }
}
