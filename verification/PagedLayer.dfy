/** One layer of the paged KV cache as a value: a pool of fixed-size blocks, the queue of free
    block ids, and for every sequence the block table of this layer. Every operation of the cache
    acts on a layer as a short chain of the primitive steps below; each step keeps the layer
    invariant `Inv`, and the lists that the sequences read (`View`) change as a plain list would. */
module PagedLayer {
  import opened Arith

  type SeqId = nat

  /** `blockSize` positions per block, each position holding `kvDim` numbers for keys and for values. */
  datatype Dims = Dims(blockSize: nat, kvDim: nat)

  datatype Block = Block(keys: seq<real>, values: seq<real>, numFilled: nat, refCount: nat)

  datatype Entry = Entry(key: seq<real>, value: seq<real>)

  datatype Layer = Layer(blocks: seq<Block>, free: seq<nat>, tables: map<SeqId, seq<nat>>)

  // ---------- flat storage of a block ----------

  function Zeros(n: nat): (r: seq<real>)
    ensures |r| == n && forall i | 0 <= i < n :: r[i] == 0.0
  {
    seq(n, _ => 0.0)
  }

  /** A cleared block, as handed out by the allocator. */
  function ClearBlock(d: Dims): Block {
    Block(Zeros(d.blockSize * d.kvDim), Zeros(d.blockSize * d.kvDim), 0, 1)
  }

  predicate BlockOk(b: Block, d: Dims) {
    && |b.keys| == d.blockSize * d.kvDim
    && |b.values| == d.blockSize * d.kvDim
    && b.numFilled <= d.blockSize
  }

  lemma RowFits(s: nat, d: Dims)
    requires s < d.blockSize
    ensures 0 <= s * d.kvDim <= s * d.kvDim + d.kvDim <= d.blockSize * d.kvDim
  {
    MulStep(s, d.blockSize, d.kvDim);
  }

  /** The vector stored at slot `s` of a flat buffer. */
  function Row(flat: seq<real>, s: nat, d: Dims): (r: seq<real>)
    requires |flat| == d.blockSize * d.kvDim && s < d.blockSize
    ensures |r| == d.kvDim
  {
    RowFits(s, d);
    flat[s * d.kvDim .. s * d.kvDim + d.kvDim]
  }

  function WriteRow(flat: seq<real>, s: nat, x: seq<real>, d: Dims): (r: seq<real>)
    requires |flat| == d.blockSize * d.kvDim && s < d.blockSize && |x| == d.kvDim
    ensures |r| == |flat|
  {
    RowFits(s, d);
    flat[.. s * d.kvDim] + x + flat[s * d.kvDim + d.kvDim ..]
  }

  /** Writing one slot changes that slot and no other. */
  lemma RowOfWrite(flat: seq<real>, s: nat, x: seq<real>, t: nat, d: Dims)
    requires |flat| == d.blockSize * d.kvDim && s < d.blockSize && t < d.blockSize && |x| == d.kvDim
    ensures Row(WriteRow(flat, s, x, d), t, d) == if t == s then x else Row(flat, t, d)
  {
    RowFits(s, d);
    RowFits(t, d);
    var w := WriteRow(flat, s, x, d);
    if t < s {
      MulStep(t, s, d.kvDim);
      assert forall i | t * d.kvDim <= i < t * d.kvDim + d.kvDim :: w[i] == flat[i];
    } else if s < t {
      MulStep(s, t, d.kvDim);
      assert forall i | t * d.kvDim <= i < t * d.kvDim + d.kvDim :: w[i] == flat[i];
    }
  }

  function EntryAt(b: Block, s: nat, d: Dims): Entry
    requires BlockOk(b, d) && s < d.blockSize
  {
    Entry(Row(b.keys, s, d), Row(b.values, s, d))
  }

  function AppendToBlock(b: Block, e: Entry, d: Dims): (r: Block)
    requires BlockOk(b, d) && b.numFilled < d.blockSize && |e.key| == |e.value| == d.kvDim
    ensures BlockOk(r, d)
  {
    Block(WriteRow(b.keys, b.numFilled, e.key, d), WriteRow(b.values, b.numFilled, e.value, d),
          b.numFilled + 1, b.refCount)
  }

  lemma AppendedFill(b: Block, e: Entry, d: Dims)
    requires BlockOk(b, d) && b.numFilled < d.blockSize && |e.key| == |e.value| == d.kvDim
    ensures AppendToBlock(b, e, d).numFilled == b.numFilled + 1
  {
  }

  /** The appended entry is in the next slot, and the other slots are as before. */
  lemma EntryOfAppend(b: Block, e: Entry, s: nat, d: Dims)
    requires BlockOk(b, d) && b.numFilled < d.blockSize && |e.key| == |e.value| == d.kvDim && s < d.blockSize
    ensures EntryAt(AppendToBlock(b, e, d), s, d) == if s == b.numFilled then e else EntryAt(b, s, d)
  {
    RowOfWrite(b.keys, b.numFilled, e.key, s, d);
    RowOfWrite(b.values, b.numFilled, e.value, s, d);
  }

  // ---------- what a sequence reads ----------

  ghost predicate NoDup(s: seq<nat>) {
    forall i, j | 0 <= i < j < |s| :: s[i] != s[j]
  }

  function Last<T>(s: seq<T>): T
    requires s != []
  {
    s[|s| - 1]
  }

  /** A block table over well-formed blocks: ids in range and distinct. Only the fill count of the last block
      is ever read through a table; a block further up counts as full, whatever its fill count says. */
  ghost predicate TableOk(blocks: seq<Block>, t: seq<nat>, d: Dims) {
    && d.blockSize > 0
    && (forall i | 0 <= i < |t| :: t[i] < |blocks| && BlockOk(blocks[t[i]], d))
    && NoDup(t)
  }

  ghost function ViewLen(blocks: seq<Block>, t: seq<nat>, d: Dims): nat
    requires TableOk(blocks, t, d)
  {
    if t == [] then 0 else (|t| - 1) * d.blockSize + blocks[Last(t)].numFilled
  }

  /** A position below the fill of `n` blocks lies in one of them. */
  lemma PositionInTable(p: nat, n: nat, filled: nat, d: Dims)
    requires d.blockSize > 0 && n > 0 && filled <= d.blockSize
    requires p < (n - 1) * d.blockSize + filled
    ensures 0 <= p / d.blockSize < n && 0 <= p % d.blockSize < d.blockSize
    ensures p / d.blockSize == n - 1 ==> p % d.blockSize < filled
  {
    var q, r := p / d.blockSize, p % d.blockSize;
    assert p == q * d.blockSize + r;
    if q >= n {
      MulStep(n - 1, q, d.blockSize);
    }
  }

  /** Slot `s` of the `i`-th block is position `i * blockSize + s`. */
  lemma PositionOf(i: nat, s: nat, d: Dims)
    requires s < d.blockSize
    ensures (i * d.blockSize + s) / d.blockSize == i && (i * d.blockSize + s) % d.blockSize == s
  {
    ModUnique(i * d.blockSize + s, d.blockSize, i, s);
  }

  /** The entry found at a position through the block table, as `key_at` and `value_at` look it up. */
  ghost function Lookup(blocks: seq<Block>, t: seq<nat>, p: nat, d: Dims): Entry
    requires TableOk(blocks, t, d) && p / d.blockSize < |t|
  {
    EntryAt(blocks[t[p / d.blockSize]], p % d.blockSize, d)
  }

  /** The list of entries that a block table stands for. */
  ghost function View(blocks: seq<Block>, t: seq<nat>, d: Dims): (v: seq<Entry>)
    requires TableOk(blocks, t, d)
    ensures |v| == ViewLen(blocks, t, d)
  {
    var len := ViewLen(blocks, t, d);
    seq(len, p requires 0 <= p < len =>
      (PositionInTable(p, |t|, blocks[Last(t)].numFilled, d); Lookup(blocks, t, p, d)))
  }

  // ---------- the invariant ----------

  ghost function Holders(tables: map<SeqId, seq<nat>>, b: nat): set<SeqId> {
    set id | id in tables && b in tables[id]
  }

  /** The accounts of the pool: the free queue lists, once each, exactly the blocks that no table
      holds, and the reference count of every other block is the number of tables holding it. */
  ghost predicate Counted(l: Layer) {
    && NoDup(l.free)
    && (forall i | 0 <= i < |l.free| :: l.free[i] < |l.blocks|)
    && (forall b | 0 <= b < |l.blocks| :: b in l.free <==> Holders(l.tables, b) == {})
    && (forall b | 0 <= b < |l.blocks| && b !in l.free :: l.blocks[b].refCount == |Holders(l.tables, b)|)
  }

  ghost predicate Inv(l: Layer, d: Dims) {
    && d.blockSize > 0
    && (forall b | 0 <= b < |l.blocks| :: BlockOk(l.blocks[b], d))
    && (forall id | id in l.tables :: TableOk(l.blocks, l.tables[id], d))
    && Counted(l)
  }

  ghost function ViewOf(l: Layer, id: SeqId, d: Dims): seq<Entry>
    requires Inv(l, d) && id in l.tables
  {
    View(l.blocks, l.tables[id], d)
  }

  /** The same vectors in every slot. */
  predicate SameSlots(a: Block, b: Block) {
    a.keys == b.keys && a.values == b.values
  }

  predicate SameData(a: Block, b: Block) {
    SameSlots(a, b) && a.numFilled == b.numFilled
  }

  /** Two pools agree on a table: the same vectors in all its blocks and the same fill count in its last one. */
  ghost predicate SameOn(blocks: seq<Block>, blocks': seq<Block>, t: seq<nat>)
    requires |blocks'| == |blocks|
  {
    && (forall i | 0 <= i < |t| && t[i] < |blocks| :: SameSlots(blocks[t[i]], blocks'[t[i]]))
    && (t != [] && Last(t) < |blocks| ==> blocks'[Last(t)].numFilled == blocks[Last(t)].numFilled)
  }

  /** A table is read through the vectors of its blocks and the fill count of the last one; neither reference
      counts nor the fill counts of the other blocks matter. */
  lemma ViewFrame(blocks: seq<Block>, blocks': seq<Block>, t: seq<nat>, d: Dims)
    requires TableOk(blocks, t, d) && |blocks'| == |blocks| && SameOn(blocks, blocks', t)
    requires forall b | 0 <= b < |blocks'| :: BlockOk(blocks'[b], d)
    ensures TableOk(blocks', t, d) && View(blocks', t, d) == View(blocks, t, d)
  {
    assert TableOk(blocks', t, d);
    var v, v' := View(blocks, t, d), View(blocks', t, d);
    forall p | 0 <= p < |v| ensures v[p] == v'[p] {
      PositionInTable(p, |t|, blocks[Last(t)].numFilled, d);
    }
  }


  /** Every sequence but `id` keeps its table and reads the same list in both layers. */
  ghost predicate OthersSame(l: Layer, l': Layer, id: SeqId, d: Dims)
    requires Inv(l, d) && Inv(l', d)
  {
    forall o | o != id ::
      && (o in l.tables <==> o in l'.tables)
      && (o in l.tables ==> l'.tables[o] == l.tables[o] && ViewOf(l', o, d) == ViewOf(l, o, d))
  }

  /** No sequence but `id` has its table changed, or anything that is read through it. */
  ghost predicate Untouched(l: Layer, l': Layer, id: SeqId) {
    && |l'.blocks| == |l.blocks|
    && (forall o | o != id :: o in l.tables <==> o in l'.tables)
    && (forall o | o != id && o in l.tables :: l'.tables[o] == l.tables[o] && SameOn(l.blocks, l'.blocks, l.tables[o]))
  }

  /** A step that touches one table keeps the invariant if that table and the accounts are in order. */
  lemma Rebuild(l: Layer, l': Layer, id: SeqId, d: Dims)
    requires Inv(l, d) && Untouched(l, l', id) && Counted(l')
    requires forall b | 0 <= b < |l'.blocks| :: BlockOk(l'.blocks[b], d)
    requires id in l'.tables ==> TableOk(l'.blocks, l'.tables[id], d)
    ensures Inv(l', d) && OthersSame(l, l', id, d)
  {
    forall o | o in l.tables && o != id
      ensures TableOk(l'.blocks, l.tables[o], d) && View(l'.blocks, l.tables[o], d) == ViewOf(l, o, d)
    {
      assert SameOn(l.blocks, l'.blocks, l.tables[o]);
      ViewFrame(l.blocks, l'.blocks, l.tables[o], d);
    }
  }

  // ---------- the accounts ----------

  lemma HoldersUpdate(tables: map<SeqId, seq<nat>>, id: SeqId, t: seq<nat>, b: nat)
    ensures Holders(tables[id := t], b) == if b in t then Holders(tables, b) + {id} else Holders(tables, b) - {id}
  {
  }

  /** A block in a table is used; with one reference it is in that table alone. */
  lemma InTable(l: Layer, id: SeqId, b: nat)
    requires Counted(l) && id in l.tables && b in l.tables[id] && b < |l.blocks|
    ensures b !in l.free && id in Holders(l.tables, b) && l.blocks[b].refCount >= 1
    ensures l.blocks[b].refCount == 1 ==> Holders(l.tables, b) == {id}
    ensures l.blocks[b].refCount == 1 ==> forall o | o in l.tables && o != id :: b !in l.tables[o]
  {
    var h := Holders(l.tables, b);
    assert id in h;
    assert |h - {id}| == |h| - 1;
    assert h == (h - {id}) + {id};
    assert forall o | o in l.tables && b in l.tables[o] :: o in h;
  }

  /** The first free block is in no table. */
  lemma FreshInNoTable(l: Layer)
    requires Counted(l) && l.free != []
    ensures forall o | o in l.tables :: l.free[0] !in l.tables[o]
    ensures NoDup(l.free[1..]) && forall b :: b in l.free[1..] <==> b in l.free && b != l.free[0]
  {
    forall o | o in l.tables ensures l.free[0] !in l.tables[o] {
      if l.free[0] in l.tables[o] { InTable(l, o, l.free[0]); }
    }
  }

  /** Accounts after the first free block goes to `id`, whose table gains `l.free[0]` and loses `gone`. */
  lemma CountedTake(l: Layer, l': Layer, id: SeqId, gone: seq<nat>)
    requires Counted(l) && l.free != [] && id in l.tables && |gone| <= 1
    requires l'.free == l.free[1..] && |l'.blocks| == |l.blocks|
    requires id in l'.tables && l'.tables == l.tables[id := l'.tables[id]]
    requires forall c | c in gone :: c in l.tables[id] && c < |l.blocks| && l.blocks[c].refCount > 1
    requires forall c | 0 <= c < |l.blocks| && c != l.free[0] ::
      (c in l'.tables[id] <==> c in l.tables[id] && c !in gone)
      && l'.blocks[c].refCount == l.blocks[c].refCount - (if c in gone then 1 else 0)
    requires l.free[0] in l'.tables[id] && l'.blocks[l.free[0]].refCount == 1
    ensures Counted(l')
  {
    var b := l.free[0];
    FreshInNoTable(l);
    forall c | 0 <= c < |l.blocks|
      ensures c in l'.free <==> Holders(l'.tables, c) == {}
      ensures c !in l'.free ==> l'.blocks[c].refCount == |Holders(l'.tables, c)|
    {
      HoldersUpdate(l.tables, id, l'.tables[id], c);
      var h, h' := Holders(l.tables, c), Holders(l'.tables, c);
      if c == b {
        assert h' == {id};
      } else if c in gone {
        InTable(l, id, c);
        assert h' == h - {id};
        assert |h'| == |h| - 1;
      } else {
        assert h' == h;
      }
    }
  }

  // ---------- primitive steps ----------

  /** Take the first free block, cleared, as the new last block of a sequence. */
  function PushFresh(l: Layer, id: SeqId, d: Dims): Layer
    requires l.free != [] && l.free[0] < |l.blocks| && id in l.tables
  {
    var b := l.free[0];
    Layer(l.blocks[b := ClearBlock(d)], l.free[1..], l.tables[id := l.tables[id] + [b]])
  }

  lemma PushFreshKeeps(l: Layer, id: SeqId, d: Dims)
    requires Inv(l, d) && l.free != [] && id in l.tables
    requires l.tables[id] != [] ==> l.blocks[Last(l.tables[id])].numFilled == d.blockSize
    ensures Inv(PushFresh(l, id, d), d) && OthersSame(l, PushFresh(l, id, d), id, d)
    ensures ViewOf(PushFresh(l, id, d), id, d) == ViewOf(l, id, d)
  {
    var l', t, b := PushFresh(l, id, d), l.tables[id], l.free[0];
    FreshInNoTable(l);
    CountedTake(l, l', id, []);
    PushedView(l.blocks, l'.blocks, t, b, d);
    Rebuild(l, l', id, d);
  }

  lemma PushedView(blocks: seq<Block>, blocks': seq<Block>, t: seq<nat>, b: nat, d: Dims)
    requires TableOk(blocks, t, d) && b < |blocks| && b !in t
    requires t != [] ==> blocks[Last(t)].numFilled == d.blockSize
    requires |blocks'| == |blocks| && forall c | 0 <= c < |blocks| && c != b :: blocks'[c] == blocks[c]
    requires BlockOk(blocks'[b], d) && blocks'[b].numFilled == 0
    ensures TableOk(blocks', t + [b], d) && View(blocks', t + [b], d) == View(blocks, t, d)
  {
    assert TableOk(blocks', t + [b], d);
    var v, v' := View(blocks, t, d), View(blocks', t + [b], d);
    assert |t| > 0 ==> |t| * d.blockSize == (|t| - 1) * d.blockSize + d.blockSize;
    forall p | 0 <= p < |v| ensures v[p] == v'[p] {
      PositionInTable(p, |t|, blocks[Last(t)].numFilled, d);
    }
  }

  /** Replace a shared last block by a private copy in a free block. */
  function CopyLast(l: Layer, id: SeqId): Layer
    requires id in l.tables && l.tables[id] != [] && Last(l.tables[id]) < |l.blocks|
    requires l.free != [] && l.free[0] < |l.blocks|
    requires l.blocks[Last(l.tables[id])].refCount > 0
  {
    var t, b := l.tables[id], l.free[0];
    var src := l.blocks[Last(t)];
    Layer(l.blocks[b := src.(refCount := 1)][Last(t) := src.(refCount := src.refCount - 1)],
          l.free[1..], l.tables[id := t[..|t| - 1] + [b]])
  }

  lemma CopyLastKeeps(l: Layer, id: SeqId, d: Dims)
    requires Inv(l, d) && l.free != [] && id in l.tables && l.tables[id] != []
    requires l.blocks[Last(l.tables[id])].refCount > 1
    ensures Inv(CopyLast(l, id), d) && OthersSame(l, CopyLast(l, id), id, d)
    ensures ViewOf(CopyLast(l, id), id, d) == ViewOf(l, id, d)
  {
    CopyLastCounted(l, id, d);
    CopyLastTable(l, id, d);
    CopyLastUntouched(l, id);
    Rebuild(l, CopyLast(l, id), id, d);
  }

  lemma CopyLastCounted(l: Layer, id: SeqId, d: Dims)
    requires Counted(l) && l.free != [] && id in l.tables && l.tables[id] != []
    requires TableOk(l.blocks, l.tables[id], d) && l.blocks[Last(l.tables[id])].refCount > 1
    ensures Counted(CopyLast(l, id))
  {
    DroppedMembers(l.tables[id], true);
    InTable(l, id, Last(l.tables[id]));
    CountedTake(l, CopyLast(l, id), id, [Last(l.tables[id])]);
  }

  lemma CopyLastTable(l: Layer, id: SeqId, d: Dims)
    requires Counted(l) && l.free != [] && id in l.tables && l.tables[id] != []
    requires TableOk(l.blocks, l.tables[id], d) && l.blocks[Last(l.tables[id])].refCount > 1
    ensures var l' := CopyLast(l, id);
      TableOk(l'.blocks, l'.tables[id], d) && View(l'.blocks, l'.tables[id], d) == View(l.blocks, l.tables[id], d)
  {
    FreshInNoTable(l);
    ReplacedView(l.blocks, CopyLast(l, id).blocks, l.tables[id], l.free[0], d);
  }

  lemma CopyLastUntouched(l: Layer, id: SeqId)
    requires Counted(l) && l.free != [] && id in l.tables && l.tables[id] != []
    requires Last(l.tables[id]) < |l.blocks| && l.blocks[Last(l.tables[id])].refCount > 1
    ensures Untouched(l, CopyLast(l, id), id)
  {
    FreshInNoTable(l);
  }

  lemma ReplacedView(blocks: seq<Block>, blocks': seq<Block>, t: seq<nat>, b: nat, d: Dims)
    requires TableOk(blocks, t, d) && t != [] && b < |blocks| && b !in t
    requires |blocks'| == |blocks| && forall c | 0 <= c < |blocks| && c != b :: SameData(blocks'[c], blocks[c])
    requires SameData(blocks'[b], blocks[Last(t)])
    ensures var t' := t[..|t| - 1] + [b]; TableOk(blocks', t', d) && View(blocks', t', d) == View(blocks, t, d)
  {
    var t' := t[..|t| - 1] + [b];
    assert TableOk(blocks', t', d);
    var v, v' := View(blocks, t, d), View(blocks', t', d);
    forall p | 0 <= p < |v| ensures v[p] == v'[p] {
      PositionInTable(p, |t|, blocks[Last(t)].numFilled, d);
    }
  }

  /** Store an entry in the next slot of the last block. */
  function WriteLast(l: Layer, id: SeqId, e: Entry, d: Dims): Layer
    requires id in l.tables && l.tables[id] != [] && Last(l.tables[id]) < |l.blocks|
    requires BlockOk(l.blocks[Last(l.tables[id])], d) && l.blocks[Last(l.tables[id])].numFilled < d.blockSize
    requires |e.key| == |e.value| == d.kvDim
  {
    var b := Last(l.tables[id]);
    l.(blocks := l.blocks[b := AppendToBlock(l.blocks[b], e, d)])
  }

  lemma WriteLastKeeps(l: Layer, id: SeqId, e: Entry, d: Dims)
    requires Inv(l, d) && id in l.tables && l.tables[id] != [] && |e.key| == |e.value| == d.kvDim
    requires l.blocks[Last(l.tables[id])].numFilled < d.blockSize
    requires l.blocks[Last(l.tables[id])].refCount <= 1
    ensures Inv(WriteLast(l, id, e, d), d) && OthersSame(l, WriteLast(l, id, e, d), id, d)
    ensures ViewOf(WriteLast(l, id, e, d), id, d) == ViewOf(l, id, d) + [e]
  {
    var l', b := WriteLast(l, id, e, d), Last(l.tables[id]);
    InTable(l, id, b);
    WrittenView(l.blocks, l.tables[id], e, d);
    Rebuild(l, l', id, d);
  }

  lemma WrittenView(blocks: seq<Block>, t: seq<nat>, e: Entry, d: Dims)
    requires TableOk(blocks, t, d) && t != [] && |e.key| == |e.value| == d.kvDim
    requires blocks[Last(t)].numFilled < d.blockSize
    ensures var blocks' := blocks[Last(t) := AppendToBlock(blocks[Last(t)], e, d)];
      TableOk(blocks', t, d) && View(blocks', t, d) == View(blocks, t, d) + [e]
  {
    hide EntryAt, AppendToBlock;
    var b, filled := Last(t), blocks[Last(t)].numFilled;
    AppendedFill(blocks[b], e, d);
    var blocks' := blocks[b := AppendToBlock(blocks[b], e, d)];
    assert TableOk(blocks', t, d);
    var v, v' := View(blocks, t, d), View(blocks', t, d);
    PositionOf(|t| - 1, filled, d);
    forall p | 0 <= p < |v'| ensures v'[p] == (v + [e])[p] {
      PositionInTable(p, |t|, filled + 1, d);
      EntryOfAppend(blocks[b], e, p % d.blockSize, d);
    }
  }

  /** Decrement a reference count; at zero the block joins the end of the free queue. */
  function FreeBlock(blocks: seq<Block>, free: seq<nat>, b: nat): (seq<Block>, seq<nat>)
    requires b < |blocks|
  {
    var r := if blocks[b].refCount == 0 then 0 else blocks[b].refCount - 1;
    (blocks[b := blocks[b].(refCount := r)], if r == 0 then free + [b] else free)
  }

  /** Take the last (or the first) block out of a table and free it. */
  function DropBlock(l: Layer, id: SeqId, last: bool): Layer
    requires id in l.tables && l.tables[id] != []
    requires forall i | 0 <= i < |l.tables[id]| :: l.tables[id][i] < |l.blocks|
  {
    var t := l.tables[id];
    var (blocks, free) := FreeBlock(l.blocks, l.free, if last then Last(t) else t[0]);
    Layer(blocks, free, l.tables[id := if last then t[..|t| - 1] else t[1..]])
  }

  lemma DropBlockKeeps(l: Layer, id: SeqId, last: bool, d: Dims)
    requires Inv(l, d) && id in l.tables && l.tables[id] != []
    ensures Inv(DropBlock(l, id, last), d) && OthersSame(l, DropBlock(l, id, last), id, d)
  {
    DropBlockCounted(l, id, last, d);
    DroppedTable(l.blocks, DropBlock(l, id, last).blocks, l.tables[id], last, d);
    DropBlockUntouched(l, id, last);
    Rebuild(l, DropBlock(l, id, last), id, d);
  }

  lemma DropBlockCounted(l: Layer, id: SeqId, last: bool, d: Dims)
    requires Counted(l) && id in l.tables && l.tables[id] != [] && TableOk(l.blocks, l.tables[id], d)
    ensures Counted(DropBlock(l, id, last))
  {
    DroppedMembers(l.tables[id], last);
    CountedDrop(l, DropBlock(l, id, last), id, if last then Last(l.tables[id]) else l.tables[id][0]);
  }

  lemma DropBlockUntouched(l: Layer, id: SeqId, last: bool)
    requires id in l.tables && l.tables[id] != []
    requires forall i | 0 <= i < |l.tables[id]| :: l.tables[id][i] < |l.blocks|
    ensures Untouched(l, DropBlock(l, id, last), id)
  {
  }

  lemma DroppedMembers(t: seq<nat>, last: bool)
    requires NoDup(t) && t != []
    ensures var b, t' := if last then Last(t) else t[0], if last then t[..|t| - 1] else t[1..];
      b !in t' && forall c :: c != b ==> (c in t' <==> c in t)
  {
    assert t == t[..|t| - 1] + [Last(t)] == [t[0]] + t[1..];
  }

  lemma DroppedTable(blocks: seq<Block>, blocks': seq<Block>, t: seq<nat>, last: bool, d: Dims)
    requires TableOk(blocks, t, d) && t != []
    requires |blocks'| == |blocks| && forall c | 0 <= c < |blocks| :: SameData(blocks[c], blocks'[c])
    ensures TableOk(blocks', if last then t[..|t| - 1] else t[1..], d)
  {
  }

  lemma CountedDrop(l: Layer, l': Layer, id: SeqId, b: nat)
    requires Counted(l) && id in l.tables && b in l.tables[id] && b < |l.blocks|
    requires id in l'.tables && l'.tables == l.tables[id := l'.tables[id]]
    requires (l'.blocks, l'.free) == FreeBlock(l.blocks, l.free, b)
    requires b !in l'.tables[id] && forall c :: c != b ==> (c in l'.tables[id] <==> c in l.tables[id])
    ensures Counted(l')
  {
    InTable(l, id, b);
    forall c | 0 <= c < |l.blocks|
      ensures c in l'.free <==> Holders(l'.tables, c) == {}
      ensures c !in l'.free ==> l'.blocks[c].refCount == |Holders(l'.tables, c)|
    {
      HoldersUpdate(l.tables, id, l'.tables[id], c);
      var h, h' := Holders(l.tables, c), Holders(l'.tables, c);
      if c != b {
        assert h' == h;
      } else {
        assert h' == h - {id};
        assert |h'| == |h| - 1;
      }
    }
  }

  /** Let a sequence share a block that another sequence holds. */
  function ShareBlock(l: Layer, id: SeqId, b: nat): Layer
    requires id in l.tables && b < |l.blocks|
  {
    Layer(l.blocks[b := l.blocks[b].(refCount := l.blocks[b].refCount + 1)], l.free,
          l.tables[id := l.tables[id] + [b]])
  }

  lemma ShareBlockKeeps(l: Layer, src: SeqId, id: SeqId, d: Dims)
    requires Inv(l, d) && id in l.tables && src in l.tables && src != id
    requires |l.tables[id]| < |l.tables[src]| && l.tables[id] == l.tables[src][..|l.tables[id]|]
    ensures l.tables[src][|l.tables[id]|] < |l.blocks|
    ensures var l' := ShareBlock(l, id, l.tables[src][|l.tables[id]|]); Inv(l', d) && OthersSame(l, l', id, d)
  {
    var t, s := l.tables[id], l.tables[src];
    var b := s[|t|];
    var l', t' := ShareBlock(l, id, b), t + [b];
    assert TableOk(l'.blocks, t', d) by { SharedTable(l.blocks, l'.blocks, s, |t|, d); }
    assert Untouched(l, l', id);
    ShareBlockCounted(l, src, id, b);
    Rebuild(l, l', id, d);
  }

  lemma ShareBlockCounted(l: Layer, src: SeqId, id: SeqId, b: nat)
    requires Counted(l) && id in l.tables && src in l.tables && b < |l.blocks|
    requires b in l.tables[src] && b !in l.tables[id]
    ensures Counted(ShareBlock(l, id, b))
  {
    InTable(l, src, b);
    var l' := ShareBlock(l, id, b);
    forall c | 0 <= c < |l.blocks|
      ensures c in l'.free <==> Holders(l'.tables, c) == {}
      ensures c !in l'.free ==> l'.blocks[c].refCount == |Holders(l'.tables, c)|
    {
      HoldersUpdate(l.tables, id, l'.tables[id], c);
      if c != b {
        assert Holders(l'.tables, c) == Holders(l.tables, c);
      } else {
        assert id !in Holders(l.tables, b);
      }
    }
  }

  lemma SharedTable(blocks: seq<Block>, blocks': seq<Block>, t: seq<nat>, n: nat, d: Dims)
    requires TableOk(blocks, t, d) && n < |t|
    requires |blocks'| == |blocks| && forall c | 0 <= c < |blocks| :: SameData(blocks[c], blocks'[c])
    ensures TableOk(blocks', t[..n] + [t[n]], d)
  {
  }

  /** A new sequence with an empty table, and the removal of such a sequence. */
  lemma AddTableKeeps(l: Layer, id: SeqId, d: Dims)
    requires Inv(l, d) && id !in l.tables
    ensures var l' := l.(tables := l.tables[id := []]);
      Inv(l', d) && OthersSame(l, l', id, d) && ViewOf(l', id, d) == []
  {
    var l' := l.(tables := l.tables[id := []]);
    forall c | 0 <= c < |l.blocks| ensures Holders(l'.tables, c) == Holders(l.tables, c) {
      HoldersUpdate(l.tables, id, [], c);
    }
    Rebuild(l, l', id, d);
  }

  lemma RemoveTableKeeps(l: Layer, id: SeqId, d: Dims)
    requires Inv(l, d) && id in l.tables && l.tables[id] == []
    ensures var l' := l.(tables := l.tables - {id}); Inv(l', d) && OthersSame(l, l', id, d)
  {
    var l' := l.(tables := l.tables - {id});
    assert forall c :: Holders(l'.tables, c) == Holders(l.tables, c);
    Rebuild(l, l', id, d);
  }

  /** Overwrite the fill count of the last block, in place. */
  function SetFill(l: Layer, id: SeqId, n: nat): Layer
    requires id in l.tables && l.tables[id] != [] && Last(l.tables[id]) < |l.blocks|
  {
    var b := Last(l.tables[id]);
    l.(blocks := l.blocks[b := l.blocks[b].(numFilled := n)])
  }

  /** A table other than that of `id` ends in block `b`. */
  predicate EndsElsewhere(l: Layer, id: SeqId, b: nat) {
    exists o | o in l.tables :: o != id && l.tables[o] != [] && Last(l.tables[o]) == b
  }

  /** The accounts do not depend on fill counts, and of the other sequences only those whose table ends in the
      block read its fill count: their lists change in length, and no others change. */
  lemma SetFillKeeps(l: Layer, id: SeqId, n: nat, d: Dims)
    requires Inv(l, d) && id in l.tables && l.tables[id] != [] && n <= d.blockSize
    ensures var b, l' := Last(l.tables[id]), SetFill(l, id, n);
      && Inv(l', d)
      && (OthersSame(l, l', id, d) <==> l.blocks[b].numFilled == n || !EndsElsewhere(l, id, b))
  {
    SetFillInv(l, id, n, d);
    hide Inv, OthersSame;
    if l.blocks[Last(l.tables[id])].numFilled == n || !EndsElsewhere(l, id, Last(l.tables[id])) {
      SetFillUnread(l, id, n, d);
    } else {
      SetFillRead(l, id, n, d);
    }
  }

  lemma SetFillInv(l: Layer, id: SeqId, n: nat, d: Dims)
    requires Inv(l, d) && id in l.tables && l.tables[id] != [] && n <= d.blockSize
    ensures Inv(SetFill(l, id, n), d)
  {
    SetFillCounted(l, id, n);
  }

  lemma SetFillCounted(l: Layer, id: SeqId, n: nat)
    requires Counted(l) && id in l.tables && l.tables[id] != [] && Last(l.tables[id]) < |l.blocks|
    ensures Counted(SetFill(l, id, n))
  {
  }

  lemma SetFillUnread(l: Layer, id: SeqId, n: nat, d: Dims)
    requires Inv(l, d) && id in l.tables && l.tables[id] != [] && Inv(SetFill(l, id, n), d)
    requires l.blocks[Last(l.tables[id])].numFilled == n || !EndsElsewhere(l, id, Last(l.tables[id]))
    ensures OthersSame(l, SetFill(l, id, n), id, d)
  {
    var l' := SetFill(l, id, n);
    forall o | o in l.tables && o != id ensures ViewOf(l', o, d) == ViewOf(l, o, d) {
      ViewFrame(l.blocks, l'.blocks, l.tables[o], d);
    }
  }

  lemma SetFillRead(l: Layer, id: SeqId, n: nat, d: Dims)
    requires Inv(l, d) && id in l.tables && l.tables[id] != [] && Inv(SetFill(l, id, n), d)
    requires l.blocks[Last(l.tables[id])].numFilled != n && EndsElsewhere(l, id, Last(l.tables[id]))
    ensures !OthersSame(l, SetFill(l, id, n), id, d)
  {
    var o :| o in l.tables && o != id && l.tables[o] != [] && Last(l.tables[o]) == Last(l.tables[id]);
    hide View;
    assert |ViewOf(SetFill(l, id, n), o, d)| != |ViewOf(l, o, d)|;
  }

  /** A table cut to `k` blocks whose last fill count is set reads the first `len` entries. */
  lemma CutView(blocks: seq<Block>, blocks': seq<Block>, t: seq<nat>, k: nat, len: nat, d: Dims)
    requires TableOk(blocks, t, d) && 0 < k <= |t| && TableOk(blocks', t[..k], d) && |blocks'| == |blocks|
    requires forall i | 0 <= i < k :: SameSlots(blocks[t[i]], blocks'[t[i]])
    requires len == (k - 1) * d.blockSize + blocks'[t[k - 1]].numFilled <= |View(blocks, t, d)|
    ensures View(blocks', t[..k], d) == View(blocks, t, d)[..len]
  {
    var v, v' := View(blocks, t, d), View(blocks', t[..k], d);
    assert Last(t[..k]) == t[k - 1];
    forall p | 0 <= p < |v'| ensures v'[p] == v[p] {
      PositionInTable(p, k, blocks'[t[k - 1]].numFilled, d);
    }
  }
}
