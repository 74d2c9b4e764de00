/** The operations of the paged cache on one layer, as chains of the primitive steps of `PagedLayer`. */
module PagedOps {
  import opened Arith
  import opened PagedLayer

  lemma OthersSameTrans(a: Layer, b: Layer, c: Layer, id: SeqId, d: Dims)
    requires Inv(a, d) && Inv(b, d) && Inv(c, d) && OthersSame(a, b, id, d) && OthersSame(b, c, id, d)
    ensures OthersSame(a, c, id, d)
  {
  }

  lemma OthersSameRefl(l: Layer, id: SeqId, d: Dims)
    requires Inv(l, d)
    ensures OthersSame(l, l, id, d)
  {
  }

  lemma TableRange(l: Layer, id: SeqId, d: Dims)
    requires Inv(l, d) && id in l.tables
    ensures d.blockSize > 0 && TableOk(l.blocks, l.tables[id], d)
    ensures forall i | 0 <= i < |l.tables[id]| :: l.tables[id][i] < |l.blocks|
  {
  }

  // ---------- append ----------

  predicate NeedsBlock(l: Layer, id: SeqId, d: Dims)
    requires id in l.tables && forall i | 0 <= i < |l.tables[id]| :: l.tables[id][i] < |l.blocks|
  {
    l.tables[id] == [] || l.blocks[Last(l.tables[id])].numFilled >= d.blockSize
  }

  /** The block that the next append would have to copy is shared. */
  predicate NeedsCopy(l: Layer, id: SeqId, d: Dims)
    requires id in l.tables && forall i | 0 <= i < |l.tables[id]| :: l.tables[id][i] < |l.blocks|
  {
    !NeedsBlock(l, id, d) && l.blocks[Last(l.tables[id])].refCount > 1
  }

  /** The last block of `id` made ready for writing: allocated, copied or as it is; `false` without a free block. */
  ghost function Prepared(l: Layer, id: SeqId, d: Dims): (Layer, bool)
    requires Inv(l, d) && id in l.tables
  {
    if NeedsBlock(l, id, d) then
      if l.free == [] then (l, false) else (PushFresh(l, id, d), true)
    else if l.blocks[Last(l.tables[id])].refCount <= 1 then (l, true)
    else if l.free == [] then (l, false)
    else (CopyLast(l, id), true)
  }

  lemma PreparedKeeps(l: Layer, id: SeqId, d: Dims)
    requires Inv(l, d) && id in l.tables
    ensures var (l', ok) := Prepared(l, id, d);
      && Inv(l', d) && id in l'.tables && OthersSame(l, l', id, d) && ViewOf(l', id, d) == ViewOf(l, id, d)
      && (ok <==> !(l.free == [] && (NeedsBlock(l, id, d) || NeedsCopy(l, id, d))))
      && (!ok ==> l' == l)
      && (ok ==> l'.tables[id] != [] && l'.blocks[Last(l'.tables[id])].numFilled < d.blockSize
                 && l'.blocks[Last(l'.tables[id])].refCount == 1)
  {
    hide Inv, View, ViewOf, OthersSame, PushFresh, CopyLast;
    TableRange(l, id, d);
    LastBlock(l, id, d);
    if NeedsBlock(l, id, d) {
      if l.free != [] {
        PushFreshKeeps(l, id, d);
        PushedLast(l, id, d);
      }
    } else if l.blocks[Last(l.tables[id])].refCount > 1 && l.free != [] {
      CopyLastKeeps(l, id, d);
      CopiedLast(l, id, d);
    }
    OthersSameRefl(l, id, d);
  }

  lemma LastBlock(l: Layer, id: SeqId, d: Dims)
    requires Inv(l, d) && id in l.tables
    ensures forall i | 0 <= i < |l.tables[id]| :: l.tables[id][i] < |l.blocks|
    ensures l.free != [] ==> l.free[0] < |l.blocks|
    ensures l.tables[id] != [] ==>
      l.blocks[Last(l.tables[id])].numFilled <= d.blockSize && l.blocks[Last(l.tables[id])].refCount >= 1
  {
    if l.tables[id] != [] { InTable(l, id, Last(l.tables[id])); }
  }

  lemma PushedLast(l: Layer, id: SeqId, d: Dims)
    requires Inv(l, d) && l.free != [] && id in l.tables && l.free[0] < |l.blocks|
    ensures var l' := PushFresh(l, id, d);
      id in l'.tables && l'.tables[id] != [] && Last(l'.tables[id]) < |l'.blocks|
      && l'.blocks[Last(l'.tables[id])].numFilled < d.blockSize && l'.blocks[Last(l'.tables[id])].refCount == 1
  {
  }

  lemma CopiedLast(l: Layer, id: SeqId, d: Dims)
    requires Inv(l, d) && l.free != [] && id in l.tables && l.tables[id] != [] && !NeedsBlock(l, id, d)
    requires l.blocks[Last(l.tables[id])].refCount > 1 && l.free[0] < |l.blocks|
    ensures var l' := CopyLast(l, id);
      id in l'.tables && l'.tables[id] != [] && Last(l'.tables[id]) < |l'.blocks|
      && l'.blocks[Last(l'.tables[id])].numFilled < d.blockSize && l'.blocks[Last(l'.tables[id])].refCount == 1
  {
    InTable(l, id, Last(l.tables[id]));
  }

  ghost function AppendLayer(l: Layer, id: SeqId, e: Entry, d: Dims): (Layer, bool)
    requires Inv(l, d) && id in l.tables && |e.key| == |e.value| == d.kvDim
  {
    PreparedKeeps(l, id, d);
    var (l', ok) := Prepared(l, id, d);
    if ok then (WriteLast(l', id, e, d), true) else (l', false)
  }

  /** Append succeeds exactly when no block is needed or one is free; then it appends to this list alone.
      A failed append leaves the layer as it was. */
  lemma AppendLayerCorrect(l: Layer, id: SeqId, e: Entry, d: Dims)
    requires Inv(l, d) && id in l.tables && |e.key| == |e.value| == d.kvDim
    ensures var (l', ok) := AppendLayer(l, id, e, d);
      && Inv(l', d) && l'.tables.Keys == l.tables.Keys && OthersSame(l, l', id, d)
      && (ok <==> !(l.free == [] && (NeedsBlock(l, id, d) || NeedsCopy(l, id, d))))
      && (ok ==> ViewOf(l', id, d) == ViewOf(l, id, d) + [e])
      && (!ok ==> l' == l)
  {
    PreparedKeeps(l, id, d);
    var (l1, ok) := Prepared(l, id, d);
    if ok {
      WriteLastKeeps(l1, id, e, d);
      OthersSameTrans(l, l1, WriteLast(l1, id, e, d), id, d);
    }
  }

  /** Only blocks that the appending sequence holds alone have their data changed by an append. */
  lemma AppendWritesOwnBlocks(l: Layer, id: SeqId, e: Entry, b: nat, d: Dims)
    requires Inv(l, d) && id in l.tables && |e.key| == |e.value| == d.kvDim && b < |l.blocks|
    ensures var (l', _) := AppendLayer(l, id, e, d);
      |l'.blocks| == |l.blocks| && (!SameData(l.blocks[b], l'.blocks[b]) ==> Holders(l'.tables, b) == {id})
  {
    hide Inv, OthersSame, ViewOf;
    PreparedKeeps(l, id, d);
    PreparedData(l, id, b, d);
    var (l1, ok) := Prepared(l, id, d);
    if ok {
      TableRange(l1, id, d);
      InTable(l1, id, Last(l1.tables[id]));
    }
  }

  /** Preparing the last block changes the data of the first free block at most, which the table then ends with. */
  lemma PreparedShape(l: Layer, id: SeqId, b: nat, d: Dims)
    requires Inv(l, d) && id in l.tables && b < |l.blocks|
    ensures var (l', ok) := Prepared(l, id, d);
      && |l'.blocks| == |l.blocks|
      && (!SameData(l.blocks[b], l'.blocks[b]) ==>
            ok && l.free != [] && b == l.free[0] && id in l'.tables && b in l'.tables[id] && l'.blocks[b].refCount == 1)
  {
    hide ViewOf, View, OthersSame;
    TableRange(l, id, d);
    if NeedsBlock(l, id, d) {
      if l.free != [] { assert PushFresh(l, id, d).tables[id] == l.tables[id] + [l.free[0]]; }
    } else if l.blocks[Last(l.tables[id])].refCount > 1 && l.free != [] {
      InTable(l, id, Last(l.tables[id]));
      assert Last(CopyLast(l, id).tables[id]) == l.free[0];
    }
  }

  lemma BlocksOk(l: Layer, d: Dims)
    requires Inv(l, d)
    ensures Counted(l) && forall c | 0 <= c < |l.blocks| :: BlockOk(l.blocks[c], d)
  {
  }

  lemma PreparedData(l: Layer, id: SeqId, b: nat, d: Dims)
    requires Inv(l, d) && id in l.tables && b < |l.blocks|
    ensures var (l', ok) := Prepared(l, id, d);
      |l'.blocks| == |l.blocks| && (!SameData(l.blocks[b], l'.blocks[b]) ==> Holders(l'.tables, b) == {id})
      && Counted(l') && forall c | 0 <= c < |l.blocks| :: BlockOk(l'.blocks[c], d)
  {
    hide Inv, Prepared, OthersSame, ViewOf, SameData, Counted, Holders;
    PreparedKeeps(l, id, d);
    PreparedShape(l, id, b, d);
    var (l', ok) := Prepared(l, id, d);
    BlocksOk(l', d);
    if !SameData(l.blocks[b], l'.blocks[b]) { InTable(l', id, b); }
  }

  // ---------- fork ----------

  function IncAll(blocks: seq<Block>, ids: seq<nat>): (r: seq<Block>)
    requires forall i | 0 <= i < |ids| :: ids[i] < |blocks|
    ensures |r| == |blocks|
  {
    if ids == [] then blocks
    else
      var r := IncAll(blocks, ids[..|ids| - 1]);
      r[Last(ids) := r[Last(ids)].(refCount := r[Last(ids)].refCount + 1)]
  }

  function ForkLayer(l: Layer, src: SeqId, dst: SeqId): Layer
    requires src in l.tables && forall i | 0 <= i < |l.tables[src]| :: l.tables[src][i] < |l.blocks|
  {
    Layer(IncAll(l.blocks, l.tables[src]), l.free, l.tables[dst := l.tables[src]])
  }

  lemma {:induction false} ForkPrefixKeeps(l: Layer, src: SeqId, dst: SeqId, n: nat, d: Dims)
    requires Inv(l, d) && src in l.tables && dst !in l.tables && n <= |l.tables[src]|
    ensures var t := l.tables[src][..n];
      var l' := Layer(IncAll(l.blocks, t), l.free, l.tables[dst := t]); Inv(l', d) && OthersSame(l, l', dst, d)
  {
    hide Inv, OthersSame;
    TableRange(l, src, d);
    var t := l.tables[src][..n];
    if n == 0 {
      AddTableKeeps(l, dst, d);
    } else {
      ForkPrefixKeeps(l, src, dst, n - 1, d);
      var t1 := l.tables[src][..n - 1];
      assert t == t1 + [l.tables[src][n - 1]] && t[..n - 1] == t1;
      var l1 := Layer(IncAll(l.blocks, t1), l.free, l.tables[dst := t1]);
      ShareBlockKeeps(l1, src, dst, d);
      assert ShareBlock(l1, dst, Last(t)) == Layer(IncAll(l.blocks, t), l.free, l.tables[dst := t]);
      OthersSameTrans(l, l1, ShareBlock(l1, dst, Last(t)), dst, d);
    }
  }

  /** A fork copies no data, and the new sequence reads what the old one reads. */
  lemma ForkLayerCorrect(l: Layer, src: SeqId, dst: SeqId, d: Dims)
    requires Inv(l, d) && src in l.tables && dst !in l.tables
    ensures var l' := ForkLayer(l, src, dst);
      && Inv(l', d) && l'.tables.Keys == l.tables.Keys + {dst} && OthersSame(l, l', dst, d)
      && l'.free == l.free && ViewOf(l', dst, d) == ViewOf(l, src, d)
  {
    assert l.tables[src][..|l.tables[src]|] == l.tables[src];
    ForkPrefixKeeps(l, src, dst, |l.tables[src]|, d);
    var l' := ForkLayer(l, src, dst);
    assert l'.tables[dst] == l'.tables[src];
  }

  // ---------- remove ----------

  function FreeAll(blocks: seq<Block>, free: seq<nat>, ids: seq<nat>): (r: (seq<Block>, seq<nat>))
    requires forall i | 0 <= i < |ids| :: ids[i] < |blocks|
    ensures |r.0| == |blocks|
  {
    if ids == [] then (blocks, free)
    else
      var (bs, fr) := FreeAll(blocks, free, ids[..|ids| - 1]);
      FreeBlock(bs, fr, Last(ids))
  }

  function RemoveLayer(l: Layer, id: SeqId): Layer
    requires id in l.tables && forall i | 0 <= i < |l.tables[id]| :: l.tables[id][i] < |l.blocks|
  {
    var (blocks, free) := FreeAll(l.blocks, l.free, l.tables[id]);
    Layer(blocks, free, l.tables - {id})
  }

  lemma {:induction false} RemovePrefixKeeps(l: Layer, id: SeqId, n: nat, d: Dims)
    requires Inv(l, d) && id in l.tables && n <= |l.tables[id]|
    ensures var (blocks, free) := FreeAll(l.blocks, l.free, l.tables[id][..n]);
      var l' := Layer(blocks, free, l.tables[id := l.tables[id][n..]]); Inv(l', d) && OthersSame(l, l', id, d)
  {
    hide Inv, OthersSame;
    TableRange(l, id, d);
    var t := l.tables[id];
    if n == 0 {
      assert l.tables[id := t[0..]] == l.tables;
      OthersSameRefl(l, id, d);
    } else {
      RemovePrefixKeeps(l, id, n - 1, d);
      assert t[..n][..n - 1] == t[..n - 1];
      assert t[n - 1..][1..] == t[n..];
      var (blocks, free) := FreeAll(l.blocks, l.free, t[..n - 1]);
      var l1 := Layer(blocks, free, l.tables[id := t[n - 1..]]);
      DropBlockKeeps(l1, id, false, d);
      var (blocks2, free2) := FreeAll(l.blocks, l.free, t[..n]);
      assert DropBlock(l1, id, false) == Layer(blocks2, free2, l.tables[id := t[n..]]);
      OthersSameTrans(l, l1, DropBlock(l1, id, false), id, d);
    }
  }

  lemma RemoveLayerCorrect(l: Layer, id: SeqId, d: Dims)
    requires Inv(l, d) && id in l.tables
    ensures var l' := RemoveLayer(l, id);
      Inv(l', d) && l'.tables.Keys == l.tables.Keys - {id} && OthersSame(l, l', id, d)
  {
    hide Inv, OthersSame;
    TableRange(l, id, d);
    var t := l.tables[id];
    assert t[..|t|] == t && t[|t|..] == [];
    RemovePrefixKeeps(l, id, |t|, d);
    var (blocks, free) := FreeAll(l.blocks, l.free, t);
    var l1 := Layer(blocks, free, l.tables[id := []]);
    RemoveTableKeeps(l1, id, d);
    assert l1.tables - {id} == l.tables - {id};
    OthersSameTrans(l, l1, RemoveLayer(l, id), id, d);
  }

  // ---------- rollback ----------

  function BlocksNeeded(newLen: nat, d: Dims): nat
    requires d.blockSize > 0
  {
    if newLen == 0 then 0 else (newLen + d.blockSize - 1) / d.blockSize
  }

  function SlotsInLast(newLen: nat, d: Dims): nat
    requires d.blockSize > 0
  {
    if newLen % d.blockSize == 0 && newLen > 0 then d.blockSize else newLen % d.blockSize
  }

  lemma NeededAndSlots(newLen: nat, d: Dims)
    requires d.blockSize > 0 && newLen > 0
    ensures BlocksNeeded(newLen, d) > 0 && 0 < SlotsInLast(newLen, d) <= d.blockSize
    ensures (BlocksNeeded(newLen, d) - 1) * d.blockSize + SlotsInLast(newLen, d) == newLen
  {
    var q, r := newLen / d.blockSize, newLen % d.blockSize;
    assert newLen == q * d.blockSize + r;
    if r == 0 {
      assert q > 0;
      assert newLen + d.blockSize - 1 == q * d.blockSize + (d.blockSize - 1);
      PositionOf(q, d.blockSize - 1, d);
      assert (q - 1) * d.blockSize + d.blockSize == q * d.blockSize;
    } else {
      assert newLen + d.blockSize - 1 == (q + 1) * d.blockSize + (r - 1);
      PositionOf(q + 1, r - 1, d);
    }
  }

  ghost function PopTo(l: Layer, id: SeqId, needed: nat, d: Dims): Layer
    requires Inv(l, d) && id in l.tables
    decreases |l.tables[id]|
  {
    if |l.tables[id]| > needed then
      DropBlockKeeps(l, id, true, d);
      PopTo(DropBlock(l, id, true), id, needed, d)
    else l
  }

  lemma DroppedShape(l: Layer, id: SeqId)
    requires id in l.tables && l.tables[id] != []
    requires forall i | 0 <= i < |l.tables[id]| :: l.tables[id][i] < |l.blocks|
    ensures var l', t := DropBlock(l, id, true), l.tables[id];
      && l'.tables == l.tables[id := t[..|t| - 1]] && |l'.blocks| == |l.blocks|
      && (forall b | 0 <= b < |l.blocks| :: SameData(l.blocks[b], l'.blocks[b]))
  {
  }

  /** Dropping blocks from the end shortens this table; what the blocks hold stays, for every sequence. */
  lemma {:induction false} PopToKeeps(l: Layer, id: SeqId, needed: nat, d: Dims)
    requires Inv(l, d) && id in l.tables
    ensures var l', t := PopTo(l, id, needed, d), l.tables[id];
      && Inv(l', d) && OthersSame(l, l', id, d) && |l'.blocks| == |l.blocks|
      && l'.tables == l.tables[id := if |t| > needed then t[..needed] else t]
      && (|t| <= needed ==> l' == l)
      && (forall b | 0 <= b < |l.blocks| :: SameData(l.blocks[b], l'.blocks[b]))
    decreases |l.tables[id]|
  {
    hide Inv, OthersSame, SameData;
    var t := l.tables[id];
    if |t| > needed {
      TableRange(l, id, d);
      DropBlockKeeps(l, id, true, d);
      DroppedShape(l, id);
      var l1 := DropBlock(l, id, true);
      hide DropBlock;
      PopToKeeps(l1, id, needed, d);
      OthersSameTrans(l, l1, PopTo(l1, id, needed, d), id, d);
      SameDataTrans(l.blocks, l1.blocks, PopTo(l1, id, needed, d).blocks);
      assert t[..|t| - 1][..needed] == t[..needed];
    } else {
      assert l.tables[id := t] == l.tables;
      OthersSameRefl(l, id, d);
      SameDataRefl(l.blocks);
    }
  }

  lemma SameDataRefl(blocks: seq<Block>)
    ensures forall b | 0 <= b < |blocks| :: SameData(blocks[b], blocks[b])
  {
  }

  lemma SameDataTrans(a: seq<Block>, b: seq<Block>, c: seq<Block>)
    requires |a| == |b| == |c|
    requires forall i | 0 <= i < |a| :: SameData(a[i], b[i]) && SameData(b[i], c[i])
    ensures forall i | 0 <= i < |a| :: SameData(a[i], c[i])
  {
  }

  ghost function RollbackLayer(l: Layer, id: SeqId, newLen: nat, d: Dims): Layer
    requires Inv(l, d) && id in l.tables
  {
    PopToKeeps(l, id, BlocksNeeded(newLen, d), d);
    var l' := PopTo(l, id, BlocksNeeded(newLen, d), d);
    if l'.tables[id] == [] then l' else SetFill(l', id, SlotsInLast(newLen, d))
  }

  function Truncate<T>(s: seq<T>, n: nat): seq<T> {
    if n < |s| then s[..n] else s
  }

  /** How many blocks a rollback leaves in the table of `id`. */
  function KeptBlocks(l: Layer, id: SeqId, newLen: nat, d: Dims): (k: nat)
    requires id in l.tables && d.blockSize > 0
    ensures k <= |l.tables[id]|
  {
    var needed := BlocksNeeded(newLen, d);
    if needed < |l.tables[id]| then needed else |l.tables[id]|
  }

  /** What a rollback should do: this list is truncated, and every other list stays. */
  ghost predicate TruncatesOnly(l: Layer, l': Layer, id: SeqId, newLen: nat, d: Dims)
    requires Inv(l, d) && Inv(l', d) && id in l.tables
  {
    && l'.tables.Keys == l.tables.Keys && OthersSame(l, l', id, d)
    && ViewOf(l', id, d) == Truncate(ViewOf(l, id, d), newLen)
  }

  /** The condition, readable before the call: no block is kept, or the last block kept already has the final
      fill count, or the list is at least as long as the target and no other table ends in that block. */
  ghost predicate RollbackSafe(l: Layer, id: SeqId, newLen: nat, d: Dims)
    requires Inv(l, d) && id in l.tables
  {
    var t, k := l.tables[id], KeptBlocks(l, id, newLen, d);
    k == 0
    || l.blocks[t[k - 1]].numFilled == SlotsInLast(newLen, d)
    || (newLen <= |ViewOf(l, id, d)| && !EndsElsewhere(l, id, t[k - 1]))
  }

  /** A list no shorter than `newLen` has the blocks that `newLen` needs. */
  lemma NeededFits(n: nat, filled: nat, newLen: nat, d: Dims)
    requires d.blockSize > 0 && n > 0 && filled <= d.blockSize && newLen > 0
    requires newLen <= (n - 1) * d.blockSize + filled
    ensures BlocksNeeded(newLen, d) <= n
  {
    NeededAndSlots(newLen, d);
    if BlocksNeeded(newLen, d) > n {
      MulStep(n - 1, BlocksNeeded(newLen, d) - 1, d.blockSize);
    }
  }

  /** A target beyond the end of the list drops no block. */
  lemma NotPopped(l: Layer, id: SeqId, newLen: nat, d: Dims)
    requires Inv(l, d) && id in l.tables && newLen > |ViewOf(l, id, d)|
    ensures |l.tables[id]| <= BlocksNeeded(newLen, d)
  {
    var t, needed := l.tables[id], BlocksNeeded(newLen, d);
    NeededAndSlots(newLen, d);
    if needed < |t| {
      MulStep(needed - 1, |t| - 1, d.blockSize);
    }
  }

  lemma ViewLength(l: Layer, id: SeqId, d: Dims)
    requires Inv(l, d) && id in l.tables
    ensures |ViewOf(l, id, d)| == ViewLen(l.blocks, l.tables[id], d)
  {
  }

  /** Whatever is shared, a rollback keeps the invariant and the block tables of the other sequences; it keeps
      their lists exactly if the fill count it writes is the old one or is read through no other table. */
  lemma RollbackLayerKeeps(l: Layer, id: SeqId, newLen: nat, d: Dims)
    requires Inv(l, d) && id in l.tables
    ensures var l', t, k := RollbackLayer(l, id, newLen, d), l.tables[id], KeptBlocks(l, id, newLen, d);
      && Inv(l', d) && l'.tables == l.tables[id := t[..k]]
      && (OthersSame(l, l', id, d) <==>
            k == 0 || l.blocks[t[k - 1]].numFilled == SlotsInLast(newLen, d) || !EndsElsewhere(l, id, t[k - 1]))
  {
    hide Inv, OthersSame;
    TableRange(l, id, d);
    var t, k, slots := l.tables[id], KeptBlocks(l, id, newLen, d), SlotsInLast(newLen, d);
    PopToKeeps(l, id, BlocksNeeded(newLen, d), d);
    var l1 := PopTo(l, id, BlocksNeeded(newLen, d), d);
    assert t[..|t|] == t;
    if k > 0 {
      if newLen > 0 { NeededAndSlots(newLen, d); }
      SetFillKeeps(l1, id, slots, d);
      SameEnds(l, l1, id, t[k - 1]);
      var l' := SetFill(l1, id, slots);
      if OthersSame(l1, l', id, d) { OthersSameTrans(l, l1, l', id, d); }
      if OthersSame(l, l', id, d) { OthersSameBack(l, l1, l', id, d); }
    }
  }

  lemma SameEnds(l: Layer, l': Layer, id: SeqId, b: nat)
    requires id in l.tables && id in l'.tables && l'.tables == l.tables[id := l'.tables[id]]
    ensures EndsElsewhere(l', id, b) <==> EndsElsewhere(l, id, b)
  {
    if EndsElsewhere(l, id, b) {
      var o :| o in l.tables && o != id && l.tables[o] != [] && Last(l.tables[o]) == b;
      assert o in l'.tables && l'.tables[o] == l.tables[o];
    }
  }

  lemma OthersSameBack(a: Layer, b: Layer, c: Layer, id: SeqId, d: Dims)
    requires Inv(a, d) && Inv(b, d) && Inv(c, d) && OthersSame(a, b, id, d) && OthersSame(a, c, id, d)
    ensures OthersSame(b, c, id, d)
  {
  }

  /** The list of `id` itself is truncated exactly if no block is kept, or the fill count is right already, or the
      list is not shorter than the target. */
  lemma RollbackOwnList(l: Layer, id: SeqId, newLen: nat, d: Dims)
    requires Inv(l, d) && id in l.tables
    ensures var l', t, k := RollbackLayer(l, id, newLen, d), l.tables[id], KeptBlocks(l, id, newLen, d);
      && Inv(l', d) && id in l'.tables
      && (ViewOf(l', id, d) == Truncate(ViewOf(l, id, d), newLen) <==>
            k == 0 || l.blocks[t[k - 1]].numFilled == SlotsInLast(newLen, d) || newLen <= |ViewOf(l, id, d)|)
  {
    hide Inv, OthersSame, View;
    RollbackLayerKeeps(l, id, newLen, d);
    TableRange(l, id, d);
    var l', t, k := RollbackLayer(l, id, newLen, d), l.tables[id], KeptBlocks(l, id, newLen, d);
    TableRange(l', id, d);
    ViewLength(l, id, d);
    ViewLength(l', id, d);
    if newLen > 0 { NeededAndSlots(newLen, d); }
    if k == 0 {
      assert t == [] || newLen == 0;
    } else {
      RollbackSlots(l, id, newLen, d);
      if newLen <= |ViewOf(l, id, d)| {
        NeededFits(|t|, l.blocks[Last(t)].numFilled, newLen, d);
        CutView(l.blocks, l'.blocks, t, k, newLen, d);
      } else {
        NotPopped(l, id, newLen, d);
        assert t[..k] == t;
        if l.blocks[t[k - 1]].numFilled == SlotsInLast(newLen, d) { assert l' == l; }
      }
    }
  }

  /** A rollback writes no vector, and one fill count. */
  lemma RollbackSlots(l: Layer, id: SeqId, newLen: nat, d: Dims)
    requires Inv(l, d) && id in l.tables && KeptBlocks(l, id, newLen, d) > 0
    ensures var l', t, k := RollbackLayer(l, id, newLen, d), l.tables[id], KeptBlocks(l, id, newLen, d);
      && |l'.blocks| == |l.blocks| && t[k - 1] < |l.blocks|
      && (forall b | 0 <= b < |l.blocks| :: SameSlots(l.blocks[b], l'.blocks[b]))
      && (forall b | 0 <= b < |l.blocks| && b != t[k - 1] :: l'.blocks[b].numFilled == l.blocks[b].numFilled)
      && l'.blocks[t[k - 1]].numFilled == SlotsInLast(newLen, d)
      && (k == |t| && l.blocks[t[k - 1]].numFilled == SlotsInLast(newLen, d) ==> l' == l)
  {
    hide Inv, OthersSame;
    TableRange(l, id, d);
    PopToKeeps(l, id, BlocksNeeded(newLen, d), d);
    var t, k := l.tables[id], KeptBlocks(l, id, newLen, d);
    assert Last(t[..k]) == t[k - 1];
    assert k == |t| ==> t[..k] == t && l.tables[id := t] == l.tables;
  }

  /** The rollback of `id` changes a fill count that `o` reads. */
  ghost predicate ReachesInto(l: Layer, id: SeqId, newLen: nat, o: SeqId, d: Dims)
    requires Inv(l, d) && id in l.tables && o in l.tables
  {
    var t, k := l.tables[id], KeptBlocks(l, id, newLen, d);
    k > 0 && l.blocks[t[k - 1]].numFilled != SlotsInLast(newLen, d)
    && l.tables[o] != [] && Last(l.tables[o]) == t[k - 1]
  }

  /** Another list stays exactly if the rollback does not reach into it. */
  lemma RollbackOtherList(l: Layer, id: SeqId, newLen: nat, o: SeqId, d: Dims)
    requires Inv(l, d) && id in l.tables && o in l.tables && o != id
    ensures var l' := RollbackLayer(l, id, newLen, d);
      Inv(l', d) && o in l'.tables && (ViewOf(l', o, d) == ViewOf(l, o, d) <==> !ReachesInto(l, id, newLen, o, d))
  {
    hide Inv, OthersSame, View, RollbackLayer;
    RollbackLayerKeeps(l, id, newLen, d);
    var l' := RollbackLayer(l, id, newLen, d);
    TableRange(l, id, d);
    if KeptBlocks(l, id, newLen, d) == 0 {
      assert OthersSame(l, l', id, d);
      OtherView(l, l', id, o, d);
    } else {
      RollbackSlots(l, id, newLen, d);
      ViewLength(l, o, d);
      ViewLength(l', o, d);
      TableRange(l, o, d);
      BlocksOk(l', d);
      if !ReachesInto(l, id, newLen, o, d) { ViewFrame(l.blocks, l'.blocks, l.tables[o], d); }
    }
  }

  lemma OtherView(l: Layer, l': Layer, id: SeqId, o: SeqId, d: Dims)
    requires Inv(l, d) && Inv(l', d) && OthersSame(l, l', id, d) && o != id && o in l.tables
    ensures o in l'.tables && ViewOf(l', o, d) == ViewOf(l, o, d)
  {
  }

  /** `RollbackSafe` is exactly the condition: without it the rollback changes the length of another list, or
      makes this one longer or too short. */
  lemma RollbackLayerExact(l: Layer, id: SeqId, newLen: nat, d: Dims)
    requires Inv(l, d) && id in l.tables
    ensures Inv(RollbackLayer(l, id, newLen, d), d)
    ensures TruncatesOnly(l, RollbackLayer(l, id, newLen, d), id, newLen, d) <==> RollbackSafe(l, id, newLen, d)
  {
    hide Inv, OthersSame, ViewOf, RollbackLayer;
    RollbackLayerKeeps(l, id, newLen, d);
    RollbackOwnList(l, id, newLen, d);
  }
}
