/** The KV cache with a hot part in memory and a cold part in mapped files, as values. It refines one plain
    list of entries per layer; a rollback that reaches into the cold part does not. */
module MmapModel {
  import opened Arith
  import opened FloatBytes
  import opened Wrappers

  datatype Dims = Dims(heads: nat, headDim: nat)

  type Vec = seq<Float>

  datatype Entry = Entry(key: Vec, value: Vec)

  function KvDim(d: Dims): nat { d.heads * d.headDim }

  function EntryBytes(d: Dims): nat { 4 * KvDim(d) }

  /** `keyDisk` and `valueDisk` are the backing files, if they exist; `keyMap` and `valueMap` the bytes that are
      mapped. */
  datatype Layer = Layer(
    hotKeys: seq<Vec>, hotValues: seq<Vec>, isOpen: bool, keyDisk: Option<seq<Byte>>, valueDisk: Option<seq<Byte>>,
    keyMap: Option<seq<Byte>>, valueMap: Option<seq<Byte>>, coldLen: nat, totalLen: nat)

  /** Where the numbers of a head start in a row. */
  function HeadStart(head: nat, d: Dims): (r: nat)
    requires head < d.heads
    ensures r == head * d.headDim && r + d.headDim <= KvDim(d)
  {
    MulStep(head, d.heads, d.headDim);
    head * d.headDim
  }

  /** The bytes of the numbers from `start` to `end` of the row at a position. */
  function ByteRange(pos: nat, start: nat, end: nat, d: Dims): (r: (nat, nat))
    requires start <= end
    ensures r.0 <= r.1 == r.0 + 4 * (end - start)
  {
    (pos * EntryBytes(d) + start * 4, pos * EntryBytes(d) + end * 4)
  }

  function Content(disk: Option<seq<Byte>>): seq<Byte> { if disk.Some? then disk.value else [] }

  // ---------- the steps of a layer ----------

  /** A new layer over whatever files are there already. */
  function NewLayer(keyDisk: Option<seq<Byte>>, valueDisk: Option<seq<Byte>>): Layer {
    Layer([], [], false, keyDisk, valueDisk, None, None, 0, 0)
  }

  function AppendHot(l: Layer, e: Entry): Layer {
    l.(hotKeys := l.hotKeys + [e.key], hotValues := l.hotValues + [e.value], totalLen := l.totalLen + 1)
  }

  /** Append the bytes of some rows to a file, creating it if need be. */
  function Written(disk: Option<seq<Byte>>, rows: seq<Vec>): Option<seq<Byte>> {
    Some(Content(disk) + Encode(Flatten(rows)))
  }

  function Remapped(l: Layer): Layer {
    if l.keyDisk.Some? && l.keyDisk.value != [] then l.(keyMap := l.keyDisk, valueMap := Some(Content(l.valueDisk)))
    else l
  }

  function Spilled(l: Layer, count: nat): Layer
    requires |l.hotValues| == |l.hotKeys|
  {
    var n := Min(count, |l.hotKeys|);
    if n == 0 then l
    else
      Remapped(l.(hotKeys := l.hotKeys[n..], hotValues := l.hotValues[n..], isOpen := true, coldLen := l.coldLen + n,
                  keyDisk := Written(l.keyDisk, l.hotKeys[..n]), valueDisk := Written(l.valueDisk, l.hotValues[..n])))
  }

  function Cleared(l: Layer): Layer { Layer([], [], false, None, None, None, None, 0, 0) }

  function RolledBack(l: Layer, newLen: nat): Layer
    requires |l.hotValues| == |l.hotKeys| && l.totalLen == l.coldLen + |l.hotKeys|
  {
    if newLen >= l.totalLen then l
    else if newLen <= l.coldLen then l.(hotKeys := [], hotValues := [], coldLen := 0, totalLen := 0)
    else
      var n := newLen - l.coldLen;
      l.(hotKeys := l.hotKeys[..n], hotValues := l.hotValues[..n], totalLen := newLen)
  }

  /** What a read returns: from the mapped bytes below `coldLen`, else from memory; empty if the bytes are not there. */
  function Read(hot: seq<Vec>, mapped: Option<seq<Byte>>, coldLen: nat, pos: nat, head: nat, d: Dims): seq<Float>
    requires pos < coldLen + |hot| && head < d.heads
    requires Wide(hot, KvDim(d))
  {
    var start := HeadStart(head, d);
    var end := start + d.headDim;
    if pos < coldLen then
      if mapped.None? then []
      else
        var (from, to) := ByteRange(pos, start, end, d);
        if to <= |mapped.value| then Decode(mapped.value[from..to]) else []
    else hot[pos - coldLen][start..end]
  }

  // ---------- the list behind a layer ----------

  function Keys(list: seq<Entry>): (r: seq<Vec>)
    ensures |r| == |list|
  {
    seq(|list|, i requires 0 <= i < |list| => list[i].key)
  }

  function Values(list: seq<Entry>): (r: seq<Vec>)
    ensures |r| == |list|
  {
    seq(|list|, i requires 0 <= i < |list| => list[i].value)
  }

  /** A file holds exactly the given rows, and all of it is mapped. */
  ghost predicate Stored(disk: Option<seq<Byte>>, mapped: Option<seq<Byte>>, rows: seq<Vec>) {
    Content(disk) == Encode(Flatten(rows)) && (Content(disk) != [] ==> mapped == Some(Content(disk)))
  }

  /** The layer stands for a list of entries. */
  ghost predicate Good(l: Layer, list: seq<Entry>, d: Dims) {
    && l.totalLen == |list| == l.coldLen + |l.hotKeys| && |l.hotValues| == |l.hotKeys|
    && Wide(Keys(list), KvDim(d)) && Wide(Values(list), KvDim(d))
    && l.hotKeys == Keys(list)[l.coldLen..] && l.hotValues == Values(list)[l.coldLen..]
    && Stored(l.keyDisk, l.keyMap, Keys(list)[..l.coldLen])
    && Stored(l.valueDisk, l.valueMap, Values(list)[..l.coldLen])
    && (l.coldLen > 0 ==> l.isOpen) && (l.isOpen ==> l.keyDisk.Some? && l.valueDisk.Some?)
  }

  predicate EntryOk(e: Entry, d: Dims) { |e.key| == |e.value| == KvDim(d) }

  /** A new layer stands for the empty list exactly if no bytes were left behind in its files. */
  lemma NewGood(keyDisk: Option<seq<Byte>>, valueDisk: Option<seq<Byte>>, d: Dims)
    ensures Good(NewLayer(keyDisk, valueDisk), [], d) <==> Content(keyDisk) == [] && Content(valueDisk) == []
  {
  }

  lemma AppendGood(l: Layer, list: seq<Entry>, e: Entry, d: Dims)
    requires Good(l, list, d) && EntryOk(e, d)
    ensures Good(AppendHot(l, e), list + [e], d)
  {
    hide Stored;
    var list' := list + [e];
    assert Keys(list') == Keys(list) + [e.key] && Values(list') == Values(list) + [e.value];
    assert Keys(list')[..l.coldLen] == Keys(list)[..l.coldLen];
    assert Values(list')[..l.coldLen] == Values(list)[..l.coldLen];
  }

  lemma StoredMore(disk: Option<seq<Byte>>, mapped: Option<seq<Byte>>, rows: seq<Vec>, from: nat, to: nat)
    requires from <= to <= |rows| && Stored(disk, mapped, rows[..from])
    ensures Content(Written(disk, rows[from..to])) == Encode(Flatten(rows[..to]))
  {
    assert rows[..to] == rows[..from] + rows[from..to];
    FlattenAppend(rows[..from], rows[from..to]);
    EncodeAppend(Flatten(rows[..from]), Flatten(rows[from..to]));
  }

  /** Key and value files have the same length. */
  lemma SameLength(a: seq<Vec>, b: seq<Vec>, n: nat)
    requires Wide(a, n) && Wide(b, n) && |a| == |b|
    ensures |Encode(Flatten(a))| == |Encode(Flatten(b))|
  {
    FlattenLength(a, n);
    FlattenLength(b, n);
  }

  /** Spilling moves entries, it does not change the list. */
  lemma SpillGood(l: Layer, list: seq<Entry>, count: nat, d: Dims)
    requires Good(l, list, d)
    ensures Good(Spilled(l, count), list, d)
  {
    hide Stored, Wide, Keys, Values, Encode, Flatten, Content, KvDim;
    var n := Min(count, |l.hotKeys|);
    if n > 0 {
      SpillStored(l, list, n, d);
      SpillHot(l, list, n, d);
    }
  }

  lemma SpillHot(l: Layer, list: seq<Entry>, n: nat, d: Dims)
    requires Good(l, list, d) && n <= |l.hotKeys|
    ensures var c := l.coldLen;
      && l.hotKeys[..n] == Keys(list)[c..c + n] && l.hotValues[..n] == Values(list)[c..c + n]
      && l.hotKeys[n..] == Keys(list)[c + n..] && l.hotValues[n..] == Values(list)[c + n..]
  {
    hide Stored, Wide, Keys, Values;
  }

  lemma SpillStored(l: Layer, list: seq<Entry>, n: nat, d: Dims)
    requires Good(l, list, d) && 0 < n <= |l.hotKeys|
    ensures var l', c := Spilled(l, n), l.coldLen + n;
      Stored(l'.keyDisk, l'.keyMap, Keys(list)[..c]) && Stored(l'.valueDisk, l'.valueMap, Values(list)[..c])
  {
    hide Encode, Flatten, KvDim, Keys, Values;
    SpillHot(l, list, n, d);
    var ks, vs, c := Keys(list), Values(list), l.coldLen;
    StoredMore(l.keyDisk, l.keyMap, ks, c, c + n);
    StoredMore(l.valueDisk, l.valueMap, vs, c, c + n);
    SameLength(ks[..c + n], vs[..c + n], KvDim(d));
  }

  lemma ClearGood(l: Layer, d: Dims)
    ensures Good(Cleared(l), [], d)
  {
  }

  /** The rollbacks that keep the cold part, or have none to keep. */
  predicate KeepsCold(l: Layer, newLen: nat, d: Dims) {
    newLen >= l.totalLen || newLen > l.coldLen || (newLen == 0 && (l.coldLen == 0 || KvDim(d) == 0))
  }

  lemma EmptyBytes(rows: seq<Vec>, n: nat)
    requires Wide(rows, n)
    ensures Encode(Flatten(rows)) == [] <==> rows == [] || n == 0
  {
    FlattenLength(rows, n);
    if rows != [] && n > 0 { MulStep(0, |rows|, n); }
  }

  /** A rollback cuts the list exactly if it does not reach into the cold part: otherwise the list is lost,
      or its bytes stay in the files. */
  lemma RollbackExact(l: Layer, list: seq<Entry>, newLen: nat, d: Dims)
    requires Good(l, list, d)
    ensures Good(RolledBack(l, newLen), list[..Min(newLen, |list|)], d) <==> KeepsCold(l, newLen, d)
  {
    hide Encode, Flatten, KvDim;
    var m := Min(newLen, |list|);
    if newLen >= l.totalLen {
      assert list[..m] == list;
    } else if newLen > l.coldLen {
      CutGood(l, list, newLen, d);
    } else if newLen == 0 {
      EmptyBytes(Keys(list)[..l.coldLen], KvDim(d));
      EmptyBytes(Values(list)[..l.coldLen], KvDim(d));
      assert list[..m] == [];
      NothingStored();
    } else {
      assert RolledBack(l, newLen).totalLen == 0 && |list[..m]| == newLen;
    }
  }

  lemma NothingStored()
    ensures Encode(Flatten([])) == []
  {
  }

  lemma CutGood(l: Layer, list: seq<Entry>, newLen: nat, d: Dims)
    requires Good(l, list, d) && l.coldLen < newLen < l.totalLen
    ensures Good(RolledBack(l, newLen), list[..newLen], d)
  {
    hide Stored;
    var cut := list[..newLen];
    assert Keys(cut) == Keys(list)[..newLen] && Values(cut) == Values(list)[..newLen];
    assert RolledBack(l, newLen).hotKeys == Keys(cut)[l.coldLen..];
    assert RolledBack(l, newLen).hotValues == Values(cut)[l.coldLen..];
    assert Keys(cut)[..l.coldLen] == Keys(list)[..l.coldLen] && Values(cut)[..l.coldLen] == Values(list)[..l.coldLen];
  }

  // ---------- reads ----------

  /** Bytes of one head inside a file of whole rows. */
  lemma HeadBytes(rows: seq<Vec>, pos: nat, head: nat, d: Dims)
    requires Wide(rows, KvDim(d)) && pos < |rows| && head < d.heads
    ensures var from := pos * EntryBytes(d) + HeadStart(head, d) * 4;
      var to := pos * EntryBytes(d) + (HeadStart(head, d) + d.headDim) * 4;
      0 <= from <= to <= |Encode(Flatten(rows))| && to - from == 4 * d.headDim
      && Decode(Encode(Flatten(rows))[from..to]) == rows[pos][HeadStart(head, d) .. HeadStart(head, d) + d.headDim]
  {
    hide Encode, Decode, Flatten, Wide, HeadStart;
    var n, start := KvDim(d), HeadStart(head, d);
    FlattenAt(rows, n, pos);
    EntryStart(pos, d);
    hide KvDim, EntryBytes;
    var base := pos * n;
    SliceBytes(Flatten(rows), rows[pos], base, n, start, d.headDim, pos * EntryBytes(d));
  }

  /** Bytes of part of a row that starts at float `base`, byte `first`. */
  lemma SliceBytes(v: seq<Float>, row: Vec, base: nat, n: nat, start: nat, m: nat, first: int)
    requires base + n <= |v| && v[base .. base + n] == row && start + m <= n && first == 4 * base
    ensures 0 <= first + start * 4 <= first + (start + m) * 4 <= |Encode(v)|
    ensures Decode(Encode(v)[first + start * 4 .. first + (start + m) * 4]) == row[start .. start + m]
  {
    hide Encode, Decode;
    EncodedLength(v);
    DecodeSlice(v, base + start, base + start + m);
    SliceOfSlice(v, base, n, start, m);
  }

  lemma EntryStart(pos: nat, d: Dims)
    ensures pos * EntryBytes(d) == 4 * (pos * KvDim(d))
  {
  }

  lemma EncodedLength(v: seq<Float>)
    ensures |Encode(v)| == 4 * |v|
  {
  }

  lemma ReadCold(hot: seq<Vec>, mapped: Option<seq<Byte>>, disk: Option<seq<Byte>>, rows: seq<Vec>, cold: nat,
                 pos: nat, head: nat, d: Dims)
    requires Wide(rows, KvDim(d)) && Wide(hot, KvDim(d)) && cold <= |rows| && pos < cold && head < d.heads
    requires Stored(disk, mapped, rows[..cold])
    ensures Read(hot, mapped, cold, pos, head, d) == rows[pos][HeadStart(head, d) .. HeadStart(head, d) + d.headDim]
    ensures d.headDim > 0 ==>
      mapped.Some? && pos * EntryBytes(d) + (HeadStart(head, d) + d.headDim) * 4 <= |mapped.value|
  {
    hide Encode, Decode, Flatten, KvDim;
    HeadBytes(rows[..cold], pos, head, d);
  }

  /** Reads of a layer are reads of its list; cold reads lie inside the mapped file. */
  lemma ReadsAreList(l: Layer, list: seq<Entry>, pos: nat, head: nat, d: Dims)
    requires Good(l, list, d) && pos < |list| && head < d.heads
    ensures EntryOk(list[pos], d) && Wide(l.hotKeys, KvDim(d)) && Wide(l.hotValues, KvDim(d))
    ensures HeadStart(head, d) == head * d.headDim
    ensures Read(l.hotKeys, l.keyMap, l.coldLen, pos, head, d)
      == list[pos].key[HeadStart(head, d) .. HeadStart(head, d) + d.headDim]
    ensures Read(l.hotValues, l.valueMap, l.coldLen, pos, head, d)
      == list[pos].value[HeadStart(head, d) .. HeadStart(head, d) + d.headDim]
    ensures pos < l.coldLen && d.headDim > 0 ==>
      l.keyMap.Some? && l.valueMap.Some?
      && pos * EntryBytes(d) + (HeadStart(head, d) + d.headDim) * 4 <= |l.keyMap.value|
      && pos * EntryBytes(d) + (HeadStart(head, d) + d.headDim) * 4 <= |l.valueMap.value|
  {
    hide Stored, EntryBytes, KvDim;
    assert Keys(list)[pos] == list[pos].key && Values(list)[pos] == list[pos].value;
    if pos < l.coldLen {
      ReadCold(l.hotKeys, l.keyMap, l.keyDisk, Keys(list), l.coldLen, pos, head, d);
      ReadCold(l.hotValues, l.valueMap, l.valueDisk, Values(list), l.coldLen, pos, head, d);
    }
  }

  /** The reads of the first `n` heads at a position, joined in order. */
  ghost function HeadReads(hot: seq<Vec>, mapped: Option<seq<Byte>>, coldLen: nat, pos: nat, n: nat, d: Dims): Vec
    requires pos < coldLen + |hot| && n <= d.heads && Wide(hot, KvDim(d))
  {
    if n == 0 then []
    else HeadReads(hot, mapped, coldLen, pos, n - 1, d) + Read(hot, mapped, coldLen, pos, n - 1, d)
  }

  lemma {:induction false} HeadReadsTo(l: Layer, list: seq<Entry>, pos: nat, n: nat, d: Dims)
    requires Good(l, list, d) && pos < |list| && n <= d.heads
    ensures EntryOk(list[pos], d) && Wide(l.hotKeys, KvDim(d)) && Wide(l.hotValues, KvDim(d))
    ensures 0 <= n * d.headDim <= KvDim(d)
    ensures HeadReads(l.hotKeys, l.keyMap, l.coldLen, pos, n, d) == list[pos].key[..n * d.headDim]
    ensures HeadReads(l.hotValues, l.valueMap, l.coldLen, pos, n, d) == list[pos].value[..n * d.headDim]
  {
    hide Read, Stored;
    EntryWide(l, list, pos, d);
    if n > 0 {
      HeadReadsTo(l, list, pos, n - 1, d);
      ReadsAreList(l, list, pos, n - 1, d);
      assert n * d.headDim == (n - 1) * d.headDim + d.headDim;
    }
  }

  lemma EntryWide(l: Layer, list: seq<Entry>, pos: nat, d: Dims)
    requires Good(l, list, d) && pos < |list|
    ensures EntryOk(list[pos], d) && Wide(l.hotKeys, KvDim(d)) && Wide(l.hotValues, KvDim(d))
  {
    hide Stored, KvDim;
    assert Keys(list)[pos] == list[pos].key && Values(list)[pos] == list[pos].value;
  }

  /** The reads of all heads at a position, joined, are the whole key and the whole value. */
  lemma HeadsJoin(l: Layer, list: seq<Entry>, pos: nat, d: Dims)
    requires Good(l, list, d) && pos < |list|
    ensures Wide(l.hotKeys, KvDim(d)) && Wide(l.hotValues, KvDim(d))
    ensures HeadReads(l.hotKeys, l.keyMap, l.coldLen, pos, d.heads, d) == list[pos].key
    ensures HeadReads(l.hotValues, l.valueMap, l.coldLen, pos, d.heads, d) == list[pos].value
  {
    hide HeadReads, Stored, Wide;
    HeadReadsTo(l, list, pos, d.heads, d);
  }

  /** After a rollback to nothing over a cold part, the next entry that is spilled reads as the entry that
      was first in the old list, whatever the new one is. */
  lemma RollbackReadsStale(l: Layer, list: seq<Entry>, e: Entry, count: nat, head: nat, d: Dims)
    requires Good(l, list, d) && EntryOk(e, d) && l.coldLen > 0 && KvDim(d) > 0 && count > 0 && head < d.heads
    ensures var l' := Spilled(AppendHot(RolledBack(l, 0), e), count);
      l'.coldLen == l'.totalLen == 1 && l'.hotKeys == [] && |list[0].key| == KvDim(d)
      && Read(l'.hotKeys, l'.keyMap, l'.coldLen, 0, head, d)
         == list[0].key[HeadStart(head, d) .. HeadStart(head, d) + d.headDim]
  {
    hide Encode, Decode, Flatten, KvDim, EntryBytes;
    var rows, old_ := Keys(list)[..l.coldLen], Content(l.keyDisk);
    assert Keys(list)[0] == list[0].key;
    EmptyBytes(rows, KvDim(d));
    HeadBytes(rows, 0, head, d);
    var l' := Spilled(AppendHot(RolledBack(l, 0), e), count);
    var from := 0 * EntryBytes(d) + HeadStart(head, d) * 4;
    var to := 0 * EntryBytes(d) + (HeadStart(head, d) + d.headDim) * 4;
    assert l'.keyMap.value[from..to] == old_[from..to];
  }
}
