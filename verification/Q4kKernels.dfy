/** The Q4K GPU kernels over the reals: the packed block format, row dequantisation, the warp-per-row
    matrix-vector product, RMS normalisation and the kernel that fuses the last two. `half` reads a
    two-byte float and `rsqrt` is the reciprocal square root; both may be any function. */
module Q4kKernels {
  import opened Arith
  import opened ParallelSums

  // ---------- the twelve scale bytes ----------

  /** The 6-bit scale and minimum of sub-block `sb`, as the kernels extract them. */
  function ScaleOf(sc: seq<bv8>, sb: nat): bv8
    requires |sc| == 12 && sb < 8
  {
    if sb < 4 then sc[sb] & 0x3F else (sc[sb + 4] & 0x0F) | ((sc[sb - 4] >> 6) << 4)
  }

  function MinOf(sc: seq<bv8>, sb: nat): bv8
    requires |sc| == 12 && sb < 8
  {
    if sb < 4 then sc[sb + 4] & 0x3F else (sc[sb + 4] >> 4) | ((sc[sb] >> 6) << 4)
  }

  datatype Pair = Pair(scale: bv8, min: bv8)

  function PairOf(sc: seq<bv8>, sb: nat): Pair
    requires |sc| == 12 && sb < 8
  {
    Pair(ScaleOf(sc, sb), MinOf(sc, sb))
  }

  function Unpack(sc: seq<bv8>): (r: seq<Pair>)
    requires |sc| == 12
    ensures |r| == 8
  {
    [PairOf(sc, 0), PairOf(sc, 1), PairOf(sc, 2), PairOf(sc, 3),
     PairOf(sc, 4), PairOf(sc, 5), PairOf(sc, 6), PairOf(sc, 7)]
  }

  /** The first four scales, then the first four minima, each with the top bits of the pair four places later. */
  function LowByte(a: bv8, b: bv8): bv8 { a | ((b >> 4) << 6) }

  /** The low nibbles of one of the last four pairs. */
  function NibbleByte(p: Pair): bv8 { (p.scale & 0x0F) | ((p.min & 0x0F) << 4) }

  /** The layout read backwards. */
  function Pack(ps: seq<Pair>): (sc: seq<bv8>)
    requires |ps| == 8
    ensures |sc| == 12
  {
    [LowByte(ps[0].scale, ps[4].scale), LowByte(ps[1].scale, ps[5].scale),
     LowByte(ps[2].scale, ps[6].scale), LowByte(ps[3].scale, ps[7].scale),
     LowByte(ps[0].min, ps[4].min), LowByte(ps[1].min, ps[5].min),
     LowByte(ps[2].min, ps[6].min), LowByte(ps[3].min, ps[7].min),
     NibbleByte(ps[4]), NibbleByte(ps[5]), NibbleByte(ps[6]), NibbleByte(ps[7])]
  }

  /** The three bytes of one column of the layout, split into two pairs, and joined again. */
  lemma JoinSplit(a: bv8, b: bv8, c: bv8)
    ensures LowByte(a & 0x3F, (c & 0x0F) | ((a >> 6) << 4)) == a
    ensures LowByte(b & 0x3F, (c >> 4) | ((b >> 6) << 4)) == b
    ensures NibbleByte(Pair((c & 0x0F) | ((a >> 6) << 4), (c >> 4) | ((b >> 6) << 4))) == c
    ensures a & 0x3F <= 0x3F && b & 0x3F <= 0x3F
    ensures (c & 0x0F) | ((a >> 6) << 4) <= 0x3F && (c >> 4) | ((b >> 6) << 4) <= 0x3F
  {
  }

  predicate SixBit(p: Pair) { p.scale <= 0x3F && p.min <= 0x3F }

  lemma SplitJoin(p: Pair, q: Pair)
    requires SixBit(p) && SixBit(q)
    ensures LowByte(p.scale, q.scale) & 0x3F == p.scale && LowByte(p.min, q.min) & 0x3F == p.min
    ensures (NibbleByte(q) & 0x0F) | ((LowByte(p.scale, q.scale) >> 6) << 4) == q.scale
    ensures (NibbleByte(q) >> 4) | ((LowByte(p.min, q.min) >> 6) << 4) == q.min
  {
  }

  /** One column of the layout: bytes `i`, `i + 4` and `i + 8` hold pairs `i` and `i + 4`. */
  lemma ColumnOfUnpack(sc: seq<bv8>, i: nat)
    requires |sc| == 12 && i < 4
    ensures LowByte(ScaleOf(sc, i), ScaleOf(sc, i + 4)) == sc[i]
    ensures LowByte(MinOf(sc, i), MinOf(sc, i + 4)) == sc[i + 4]
    ensures NibbleByte(PairOf(sc, i + 4)) == sc[i + 8]
    ensures SixBit(PairOf(sc, i)) && SixBit(PairOf(sc, i + 4))
  {
    JoinSplit(sc[i], sc[i + 4], sc[i + 8]);
  }

  /** Twelve bytes determine eight pairs of 6-bit numbers, and the bytes are determined by them. */
  lemma UnpackInverse(sc: seq<bv8>)
    requires |sc| == 12
    ensures Pack(Unpack(sc)) == sc
    ensures forall i | 0 <= i < 8 :: SixBit(Unpack(sc)[i])
  {
    hide LowByte, NibbleByte, ScaleOf, MinOf, SixBit;
    ColumnOfUnpack(sc, 0);
    ColumnOfUnpack(sc, 1);
    ColumnOfUnpack(sc, 2);
    ColumnOfUnpack(sc, 3);
  }

  lemma ColumnOfPack(sc: seq<bv8>, i: nat, p: Pair, q: Pair)
    requires |sc| == 12 && i < 4 && SixBit(p) && SixBit(q)
    requires sc[i] == LowByte(p.scale, q.scale) && sc[i + 4] == LowByte(p.min, q.min) && sc[i + 8] == NibbleByte(q)
    ensures PairOf(sc, i) == p && PairOf(sc, i + 4) == q
  {
    SplitJoin(p, q);
  }

  /** Any eight pairs of 6-bit numbers can be stored. */
  lemma PackInverse(ps: seq<Pair>)
    requires |ps| == 8 && forall i | 0 <= i < 8 :: SixBit(ps[i])
    ensures Unpack(Pack(ps)) == ps
  {
    hide LowByte, NibbleByte, SixBit, PairOf;
    var sc := Pack(ps);
    ColumnOfPack(sc, 0, ps[0], ps[4]);
    ColumnOfPack(sc, 1, ps[1], ps[5]);
    ColumnOfPack(sc, 2, ps[2], ps[6]);
    ColumnOfPack(sc, 3, ps[3], ps[7]);
  }

  // ---------- one element of a block ----------

  function ByteVal(b: bv8): real { b as int as real }

  /** A byte counts as its unsigned value. */
  lemma ByteValues(b: bv8)
    ensures ByteVal(0) == 0.0 && ByteVal(1) == 1.0 && ByteVal(0x3F) == 63.0 && ByteVal(0xFF) == 255.0
    ensures b < 0xFF ==> ByteVal(b + 1) == ByteVal(b) + 1.0
  {
  }

  function Value(d: real, scale: bv8, nibble: bv8, dmin: real, min: bv8): real {
    d * ByteVal(scale) * ByteVal(nibble) - dmin * ByteVal(min)
  }

  function HalfOf(byte: bv8, high: bool): bv8 { if high then byte >> 4 else byte & 0x0F }

  /** Element `e` of a 144-byte block: `d * scale * nibble - dmin * min`. */
  function Dequant(half: (bv8, bv8) -> real, blk: seq<bv8>, e: nat): real
    requires |blk| == 144 && e < 256
  {
    var sb, l := e / 32, e % 32;
    var sc := blk[4..16];
    var byte := blk[16 + (sb / 2) * 32 + l];
    var nibble := HalfOf(byte, sb % 2 == 1);
    Value(half(blk[0], blk[1]), ScaleOf(sc, sb), nibble, half(blk[2], blk[3]), MinOf(sc, sb))
  }

  // ---------- the whole block, packed and unpacked ----------

  /** Two 4-bit numbers in one byte. */
  function TwoNibbles(low: bv8, high: bv8): bv8 { low | (high << 4) }

  /** The byte of element `e`, and the half of it that the element takes. */
  function ByteOf(e: nat): (k: nat)
    requires e < 256
    ensures k < 128
  {
    e / 64 * 32 + e % 32
  }

  predicate InHighHalf(e: nat) { e / 32 % 2 == 1 }

  /** The element in the low half of byte `k`; the one in the high half comes 32 places later. */
  function LowElement(k: nat): (e: nat)
    requires k < 128
    ensures e + 32 < 256
  {
    k / 32 * 64 + k % 32
  }

  lemma PlacesOf(g: nat, l: nat)
    requires g < 4 && l < 32
    ensures LowElement(g * 32 + l) == g * 64 + l
    ensures ByteOf(g * 64 + l) == g * 32 + l && !InHighHalf(g * 64 + l)
    ensures ByteOf(g * 64 + 32 + l) == g * 32 + l && InHighHalf(g * 64 + 32 + l)
  {
    ModUnique(g * 32 + l, 32, g, l);
    ModUnique(g * 64 + l, 64, g, l);
    ModUnique(g * 64 + l, 32, 2 * g, l);
    ModUnique(g * 64 + 32 + l, 64, g, 32 + l);
    ModUnique(g * 64 + 32 + l, 32, 2 * g + 1, l);
  }

  lemma PlacesOfByte(k: nat)
    requires k < 128
    ensures ByteOf(LowElement(k)) == k && !InHighHalf(LowElement(k))
    ensures ByteOf(LowElement(k) + 32) == k && InHighHalf(LowElement(k) + 32)
  {
    PlacesOf(k / 32, k % 32);
  }

  lemma PlaceOfElement(e: nat)
    requires e < 256
    ensures e == if InHighHalf(e) then LowElement(ByteOf(e)) + 32 else LowElement(ByteOf(e))
  {
    PlacesOf(e / 64, e % 32);
  }

  /** 256 nibbles in 128 bytes. */
  function PackNibbles(ns: seq<bv8>): (qs: seq<bv8>)
    requires |ns| == 256
    ensures |qs| == 128
  {
    seq(128, k requires 0 <= k < 128 => TwoNibbles(ns[LowElement(k)], ns[LowElement(k) + 32]))
  }

  /** A block as it is written: the two half-floats, the scale bytes, the nibbles. */
  function PackBlock(header: seq<bv8>, ps: seq<Pair>, ns: seq<bv8>): (blk: seq<bv8>)
    requires |header| == 4 && |ps| == 8 && |ns| == 256
    ensures |blk| == 144
  {
    header + Pack(ps) + PackNibbles(ns)
  }

  predicate Packable(header: seq<bv8>, ps: seq<Pair>, ns: seq<bv8>) {
    && |header| == 4 && |ps| == 8 && |ns| == 256
    && (forall i | 0 <= i < 8 :: SixBit(ps[i])) && (forall i | 0 <= i < 256 :: ns[i] <= 0x0F)
  }

  /** What a packed block stands for at element `e`. */
  function Element(half: (bv8, bv8) -> real, header: seq<bv8>, ps: seq<Pair>, ns: seq<bv8>, e: nat): real
    requires |header| == 4 && |ps| == 8 && |ns| == 256 && e < 256
  {
    half(header[0], header[1]) * ByteVal(ps[e / 32].scale) * ByteVal(ns[e])
    - half(header[2], header[3]) * ByteVal(ps[e / 32].min)
  }

  lemma NibbleOf(low: bv8, high: bv8)
    requires low <= 0x0F && high <= 0x0F
    ensures HalfOf(TwoNibbles(low, high), false) == low && HalfOf(TwoNibbles(low, high), true) == high
  {
  }

  lemma NibbleAt(ns: seq<bv8>, e: nat)
    requires |ns| == 256 && e < 256 && forall i | 0 <= i < 256 :: ns[i] <= 0x0F
    ensures ns[e] == HalfOf(PackNibbles(ns)[ByteOf(e)], InHighHalf(e))
  {
    hide TwoNibbles, HalfOf, ByteOf, LowElement, InHighHalf;
    PlaceOfElement(e);
    NibbleOf(ns[LowElement(ByteOf(e))], ns[LowElement(ByteOf(e)) + 32]);
  }

  lemma BlockParts(header: seq<bv8>, ps: seq<Pair>, ns: seq<bv8>)
    requires |header| == 4 && |ps| == 8 && |ns| == 256
    ensures var blk := PackBlock(header, ps, ns);
      && (forall i | 0 <= i < 4 :: blk[i] == header[i]) && blk[4..16] == Pack(ps)
      && (forall k | 0 <= k < 128 :: blk[16 + k] == PackNibbles(ns)[k])
  {
    hide Pack, PackNibbles;
  }

  /** Unpacking a packed block gives back what was packed: element `e` is `d * scale * nibble - dmin * min`. */
  lemma UnpackElement(half: (bv8, bv8) -> real, header: seq<bv8>, ps: seq<Pair>, ns: seq<bv8>, e: nat)
    requires Packable(header, ps, ns) && e < 256
    ensures Dequant(half, PackBlock(header, ps, ns), e) == Element(half, header, ps, ns, e)
  {
    BlockParts(header, ps, ns);
    PackInverse(ps);
    PairAt(ps, e / 32);
    NibbleAt(ns, e);
    DequantIs(half, PackBlock(header, ps, ns), e);
    ElementIs(half, header, ps, ns, e);
    hide Pack, PackNibbles, PackBlock, ScaleOf, MinOf, HalfOf, SixBit, Dequant, ByteOf, InHighHalf, Value, Element;
  }

  lemma DequantIs(half: (bv8, bv8) -> real, blk: seq<bv8>, e: nat)
    requires |blk| == 144 && e < 256
    ensures Dequant(half, blk, e) ==
      Value(half(blk[0], blk[1]), ScaleOf(blk[4..16], e / 32), HalfOf(blk[16 + ByteOf(e)], InHighHalf(e)),
            half(blk[2], blk[3]), MinOf(blk[4..16], e / 32))
  {
    hide ScaleOf, MinOf, HalfOf, Value;
    assert e / 32 / 2 == e / 64;
  }

  lemma ElementIs(half: (bv8, bv8) -> real, header: seq<bv8>, ps: seq<Pair>, ns: seq<bv8>, e: nat)
    requires |header| == 4 && |ps| == 8 && |ns| == 256 && e < 256
    ensures Element(half, header, ps, ns, e) ==
      Value(half(header[0], header[1]), ps[e / 32].scale, ns[e], half(header[2], header[3]), ps[e / 32].min)
  {
    hide ByteVal;
  }

  lemma PairAt(ps: seq<Pair>, sb: nat)
    requires |ps| == 8 && sb < 8 && Unpack(Pack(ps)) == ps
    ensures ScaleOf(Pack(ps), sb) == ps[sb].scale && MinOf(Pack(ps), sb) == ps[sb].min
  {
    hide Pack, ScaleOf, MinOf;
    assert Unpack(Pack(ps))[sb] == PairOf(Pack(ps), sb);
  }

  /** The nibbles of a block. */
  function Nibbles(blk: seq<bv8>): (ns: seq<bv8>)
    requires |blk| == 144
    ensures |ns| == 256
  {
    seq(256, e requires 0 <= e < 256 => HalfOf(blk[16 + ByteOf(e)], InHighHalf(e)))
  }

  lemma JoinNibbles(b: bv8)
    ensures TwoNibbles(HalfOf(b, false), HalfOf(b, true)) == b
    ensures HalfOf(b, false) <= 0x0F && HalfOf(b, true) <= 0x0F
  {
  }

  /** Every block of 144 bytes is a packed one. */
  lemma PackUnpacked(blk: seq<bv8>)
    requires |blk| == 144
    ensures Packable(blk[..4], Unpack(blk[4..16]), Nibbles(blk))
    ensures PackBlock(blk[..4], Unpack(blk[4..16]), Nibbles(blk)) == blk
  {
    UnpackInverse(blk[4..16]);
    NibblesPacked(blk);
    hide Pack, Unpack, Nibbles, PackNibbles, SixBit;
  }

  lemma NibblesPacked(blk: seq<bv8>)
    requires |blk| == 144
    ensures forall e | 0 <= e < 256 :: Nibbles(blk)[e] <= 0x0F
    ensures PackNibbles(Nibbles(blk)) == blk[16..]
  {
    hide TwoNibbles, HalfOf, ByteOf, LowElement, InHighHalf;
    var ns := Nibbles(blk);
    forall e | 0 <= e < 256 ensures ns[e] <= 0x0F { JoinNibbles(blk[16 + ByteOf(e)]); }
    forall k | 0 <= k < 128 ensures PackNibbles(ns)[k] == blk[16..][k] {
      PlacesOfByte(k);
      JoinNibbles(blk[16 + k]);
    }
  }

  function Block(w: seq<bv8>, k: nat): (b: seq<bv8>)
    requires (k + 1) * 144 <= |w|
    ensures |b| == 144
  {
    w[k * 144 .. k * 144 + 144]
  }

  /** Row `row` of the weight matrix with `bpr` blocks per row, dequantised. */
  function Row(half: (bv8, bv8) -> real, w: seq<bv8>, row: nat, bpr: nat): (r: seq<real>)
    requires (row + 1) * bpr * 144 <= |w|
    ensures |r| == bpr * 256
  {
    seq(bpr * 256, i requires 0 <= i < bpr * 256 =>
      (RowBlock(w, row, bpr, i / 256); Dequant(half, Block(w, row * bpr + i / 256), i % 256)))
  }

  /** Block `b` of a row lies inside the weights. */
  lemma RowBlock(w: seq<bv8>, row: nat, bpr: nat, b: nat)
    requires (row + 1) * bpr * 144 <= |w| && b < bpr
    ensures 0 <= row * bpr && (row * bpr + b + 1) * 144 <= |w|
  {
    assert (row + 1) * bpr == row * bpr + bpr;
    assert row * bpr + b + 1 <= (row + 1) * bpr;
    if row * bpr + b + 1 < (row + 1) * bpr { MulStep(row * bpr + b + 1, (row + 1) * bpr, 144); }
  }

  /** Element `e` of block `b` is element `b * 256 + e` of the row. */
  lemma RowElement(half: (bv8, bv8) -> real, w: seq<bv8>, row: nat, bpr: nat, b: nat, e: nat)
    requires (row + 1) * bpr * 144 <= |w| && b < bpr && e < 256
    ensures 0 <= row * bpr && (row * bpr + b + 1) * 144 <= |w| && b * 256 + e < bpr * 256
    ensures Row(half, w, row, bpr)[b * 256 + e] == Dequant(half, Block(w, row * bpr + b), e)
  {
    RowBlock(w, row, bpr, b);
    assert (b * 256 + e) / 256 == b && (b * 256 + e) % 256 == e;
  }

  /** Element `b * 256 + e` of a row, if block `b` of the row, 144 bytes at `(row * bpr + b) * 144`, is a packed one. */
  lemma RowOfPacked(half: (bv8, bv8) -> real, w: seq<bv8>, row: nat, bpr: nat, b: nat, e: nat,
                    header: seq<bv8>, ps: seq<Pair>, ns: seq<bv8>)
    requires (row + 1) * bpr * 144 <= |w| && b < bpr && e < 256 && Packable(header, ps, ns)
    requires 0 <= (row * bpr + b) * 144 && (row * bpr + b) * 144 + 144 <= |w|
    requires w[(row * bpr + b) * 144 .. (row * bpr + b) * 144 + 144] == PackBlock(header, ps, ns)
    ensures b * 256 + e < bpr * 256
    ensures Row(half, w, row, bpr)[b * 256 + e] == Element(half, header, ps, ns, e)
  {
    hide Dequant, Row, PackBlock, Element, Packable;
    RowElement(half, w, row, bpr, b, e);
    UnpackElement(half, header, ps, ns, e);
  }

  /** One warp per block: lane `lane` writes elements `lane`, `lane + 32` and so on of its block. */
  method DequantRowKernel(half: (bv8, bv8) -> real, w: seq<bv8>, row: nat, bpr: nat, out: array<real>)
    requires (row + 1) * bpr * 144 <= |w| && out.Length == bpr * 256
    modifies out
    ensures out[..] == Row(half, w, row, bpr)
  {
    ghost var r := Row(half, w, row, bpr);
    for b := 0 to bpr
      invariant forall i | 0 <= i < b * 256 :: out[i] == r[i]
    {
      RowBlock(w, row, bpr, b);
      var blk := Block(w, row * bpr + b);
      for j := 0 to 8
        invariant forall i | 0 <= i < b * 256 + j * 32 :: out[i] == r[i]
      {
        for lane := 0 to 32
          invariant forall i | 0 <= i < b * 256 + j * 32 + lane :: out[i] == r[i]
        {
          var e := lane + j * 32;
          RowElement(half, w, row, bpr, b, e);
          out[b * 256 + e] := Dequant(half, blk, e);
        }
      }
    }
  }

  // ---------- the matrix-vector product ----------

  function Products(a: seq<real>, x: seq<real>): (p: seq<real>)
    requires |a| == |x|
    ensures |p| == |a|
  {
    seq(|a|, i requires 0 <= i < |a| => a[i] * x[i])
  }

  lemma {:induction false} DotIsSum(a: seq<real>, x: seq<real>, n: nat)
    requires n <= |a| == |x|
    ensures Dot(a, 0, x, 0, n) == SeqSum(Products(a, x), n)
  {
    if n > 0 { DotIsSum(a, x, n - 1); }
  }

  /** The eight elements of one block that belong to a lane; `p` holds the products of the row. */
  method BlockPartial(half: (bv8, bv8) -> real, blk: seq<bv8>, xs: array<real>, b: nat, lane: nat,
                      ghost p: seq<real>, partial0: real) returns (partial: real)
    requires |blk| == 144 && lane < 32 && b * 256 + 256 <= xs.Length == |p|
    requires forall i | b * 256 <= i < b * 256 + 256 :: p[i] == Dequant(half, blk, i - b * 256) * xs[i]
    ensures partial + Strided(p, b * 256 + 256 + lane, 32) == partial0 + Strided(p, b * 256 + lane, 32)
  {
    hide Dequant;
    partial := partial0;
    for j := 0 to 8
      invariant partial + Strided(p, b * 256 + j * 32 + lane, 32) == partial0 + Strided(p, b * 256 + lane, 32)
    {
      var e := lane + j * 32;
      assert p[b * 256 + e] == Dequant(half, blk, e) * xs[b * 256 + e];
      partial := partial + Dequant(half, blk, e) * xs[b * 256 + e];
    }
  }

  lemma BlockProducts(half: (bv8, bv8) -> real, w: seq<bv8>, row: nat, bpr: nat, x: seq<real>, b: nat)
    requires (row + 1) * bpr * 144 <= |w| && |x| == bpr * 256 && b < bpr
    ensures 0 <= row * bpr && (row * bpr + b + 1) * 144 <= |w|
    ensures b * 256 + 256 <= |x|
    ensures forall i | b * 256 <= i < b * 256 + 256 ::
      Products(Row(half, w, row, bpr), x)[i] == Dequant(half, Block(w, row * bpr + b), i - b * 256) * x[i]
  {
    hide Dequant, Row, Block;
    forall i | b * 256 <= i < b * 256 + 256
      ensures 0 <= row * bpr && (row * bpr + b + 1) * 144 <= |w|
      ensures Products(Row(half, w, row, bpr), x)[i] == Dequant(half, Block(w, row * bpr + b), i - b * 256) * x[i]
    {
      RowElement(half, w, row, bpr, b, i - b * 256);
    }
    RowBlock(w, row, bpr, b);
  }

  /** The partial sum of one lane over all blocks of the row. */
  method LanePartial(half: (bv8, bv8) -> real, w: seq<bv8>, row: nat, bpr: nat, xs: array<real>, lane: nat)
    returns (partial: real)
    requires (row + 1) * bpr * 144 <= |w| && xs.Length == bpr * 256 && lane < 32
    ensures partial == Strided(Products(Row(half, w, row, bpr), xs[..]), lane, 32)
  {
    hide Dequant, Row, Products;
    ghost var p := Products(Row(half, w, row, bpr), xs[..]);
    partial := 0.0;
    for b := 0 to bpr
      invariant partial + Strided(p, b * 256 + lane, 32) == Strided(p, lane, 32)
    {
      RowBlock(w, row, bpr, b);
      var blk := Block(w, row * bpr + b);
      BlockProducts(half, w, row, bpr, xs[..], b);
      partial := BlockPartial(half, blk, xs, b, lane, p, partial);
    }
  }

  /** One warp: 32 lanes and the shuffle tree compute the dot product of the row with `xs`. */
  method WarpRow(half: (bv8, bv8) -> real, w: seq<bv8>, row: nat, bpr: nat, xs: array<real>) returns (r: real)
    requires (row + 1) * bpr * 144 <= |w| && xs.Length == bpr * 256
    ensures r == Dot(Row(half, w, row, bpr), 0, xs[..], 0, xs.Length)
  {
    ghost var p := Products(Row(half, w, row, bpr), xs[..]);
    DotIsSum(Row(half, w, row, bpr), xs[..], xs.Length);
    var lanes: seq<real> := [];
    for lane := 0 to 32
      invariant |lanes| == lane && forall t | 0 <= t < lane :: lanes[t] == Strided(p, t, 32)
    {
      var partial := LanePartial(half, w, row, bpr, xs, lane);
      lanes := lanes + [partial];
    }
    SlotsAddUp(lanes, p, 32, 32);
    StridedIsSum(p, 32);
    r := WarpReduce(lanes);
  }

  /** Each of 1024 threads copies its stride of the input into shared memory. */
  method LoadShared(x: seq<real>, xs: array<real>)
    requires xs.Length == |x|
    modifies xs
    ensures xs[..] == x
  {
    for t := 0 to 1024
      invariant forall i | 0 <= i < |x| && i % 1024 < t :: xs[i] == x[i]
    {
      LoadStride(x, xs, t);
    }
  }

  /** The stride of thread `t`. */
  method LoadStride(x: seq<real>, xs: array<real>, t: nat)
    requires xs.Length == |x| && t < 1024
    modifies xs
    ensures forall k | 0 <= k < |x| :: xs[k] == if k % 1024 == t then x[k] else old(xs[k])
  {
    var i := t;
    while i < |x|
      invariant t <= i && i % 1024 == t
      invariant forall k | 0 <= k < |x| :: xs[k] == if k % 1024 == t && k < i then x[k] else old(xs[k])
    {
      xs[i] := x[i];
      i := i + 1024;
    }
  }

  /** `r` is the dot product of `x` with row `row` as `DequantRowKernel` produces it. */
  ghost predicate IsRowProduct(half: (bv8, bv8) -> real, w: seq<bv8>, row: nat, x: seq<real>, r: real)
    requires |x| % 256 == 0
  {
    (row + 1) * (|x| / 256) * 144 <= |w| && r == Dot(Row(half, w, row, |x| / 256), 0, x, 0, |x|)
  }

  /** All rows of `w`, 32 rows per thread block; the result is the matrix-vector product. */
  method Sgemv(half: (bv8, bv8) -> real, w: seq<bv8>, x: seq<real>, outDim: nat, y: array<real>)
    requires |x| % 256 == 0 && outDim % 32 == 0 && y.Length == outDim && outDim * (|x| / 256) * 144 <= |w|
    modifies y
    ensures forall row: nat | row < outDim :: IsRowProduct(half, w, row, x, y[row])
  {
    var bpr := |x| / 256;
    for blockIdx := 0 to outDim / 32
      invariant forall row: nat | row < blockIdx * 32 :: IsRowProduct(half, w, row, x, y[row])
    {
      var xs := new real[|x|];
      LoadShared(x, xs);
      for warp := 0 to 32
        invariant xs[..] == x
        invariant forall row: nat | row < blockIdx * 32 + warp :: IsRowProduct(half, w, row, x, y[row])
      {
        var row := blockIdx * 32 + warp;
        RowsFit(row, outDim, bpr);
        y[row] := WarpRow(half, w, row, bpr, xs);
      }
    }
  }

  lemma RowsFit(row: nat, rows: nat, bpr: nat)
    requires row < rows
    ensures 0 <= (row + 1) * bpr * 144 <= rows * bpr * 144
  {
    MulStep(row, rows, bpr);
    assert (row + 1) * bpr == row * bpr + bpr <= rows * bpr;
  }

  // ---------- RMS normalisation ----------

  ghost function SumOfSquares(x: seq<real>): real { Dot(x, 0, x, 0, |x|) }

  ghost function RmsScale(rsqrt: real -> real, x: seq<real>, eps: real): real
    requires x != []
  {
    rsqrt(SumOfSquares(x) / |x| as real + eps)
  }

  ghost function Normalised(rsqrt: real -> real, x: seq<real>, weight: seq<real>, eps: real): (r: seq<real>)
    requires x != [] && |weight| == |x|
    ensures |r| == |x|
  {
    Scaled(x, weight, RmsScale(rsqrt, x, eps))
  }

  function Scaled(x: seq<real>, weight: seq<real>, scale: real): (r: seq<real>)
    requires |weight| == |x|
    ensures |r| == |x|
  {
    seq(|x|, i requires 0 <= i < |x| => x[i] * scale * weight[i])
  }

  /** Every thread adds the squares of its stride into its own slot. */
  method PartialSquares(x: seq<real>, threads: nat, s: array<real>)
    requires 0 < threads <= s.Length
    modifies s
    ensures forall t | 0 <= t < threads :: s[t] == Strided(Products(x, x), t, threads)
  {
    ghost var p := Products(x, x);
    for t := 0 to threads
      invariant forall u | 0 <= u < t :: s[u] == Strided(p, u, threads)
    {
      var ss, i := 0.0, t;
      while i < |x|
        invariant ss + Strided(p, i, threads) == Strided(p, t, threads)
      {
        ss := ss + x[i] * x[i];
        i := i + threads;
      }
      s[t] := ss;
    }
  }

  /** Strided squares and the tree give the sum of squares in slot 0, for any power-of-two thread count. */
  method SquaresReduced(x: seq<real>, threads: nat, s: array<real>)
    requires PowerOfTwo(threads) && threads <= s.Length
    modifies s
    ensures s[0] == SumOfSquares(x)
  {
    DotIsSum(x, x, |x|);
    PartialSquares(x, threads, s);
    ghost var p := Products(x, x);
    SlotsAddUp(s[..], p, threads, threads);
    StridedIsSum(p, threads);
    TreeReduce(s, threads);
  }

  method RmsNorm(rsqrt: real -> real, x: seq<real>, weight: seq<real>, eps: real, threads: nat, out: array<real>)
    requires PowerOfTwo(threads) && x != [] && |weight| == |x| == out.Length
    modifies out
    ensures out[..] == Normalised(rsqrt, x, weight, eps)
    ensures forall i | 0 <= i < |x| ::
      out[i] == x[i] * rsqrt(Dot(x, 0, x, 0, |x|) / |x| as real + eps) * weight[i]
  {
    var s := new real[threads];
    SquaresReduced(x, threads, s);
    var scale := rsqrt(s[0] / |x| as real + eps);
    ScaleByStride(x, weight, scale, threads, out);
    assert forall i | 0 <= i < |x| :: out[..][i] == out[i];
  }

  /** What the normalisation is for: if `rsqrt` is an inverse square root and the weights are one, the mean square
      `m` of the vector becomes `m / (m + eps)`. */
  lemma UnitPower(rsqrt: real -> real, x: seq<real>, weight: seq<real>, eps: real)
    requires x != [] && |weight| == |x| && forall i | 0 <= i < |x| :: weight[i] == 1.0
    requires var v := Dot(x, 0, x, 0, |x|) / |x| as real + eps; v > 0.0 && rsqrt(v) * rsqrt(v) * v == 1.0
    ensures var m, r := Dot(x, 0, x, 0, |x|) / |x| as real, Normalised(rsqrt, x, weight, eps);
      Dot(r, 0, r, 0, |x|) / |x| as real == m / (m + eps)
  {
    hide Dot;
    var n, d := |x| as real, Dot(x, 0, x, 0, |x|);
    var v := d / n + eps;
    var s, r := rsqrt(v), Normalised(rsqrt, x, weight, eps);
    NormalisedOnes(rsqrt, x, weight, eps);
    hide Normalised;
    DotScaled(x, r, s, |x|);
    Divided(s, v, d, n, Dot(r, 0, r, 0, |x|));
  }

  lemma NormalisedOnes(rsqrt: real -> real, x: seq<real>, weight: seq<real>, eps: real)
    requires x != [] && |weight| == |x| && forall i | 0 <= i < |x| :: weight[i] == 1.0
    ensures var r := Normalised(rsqrt, x, weight, eps);
      forall i | 0 <= i < |x| :: r[i] == x[i] * rsqrt(Dot(x, 0, x, 0, |x|) / |x| as real + eps)
  {
    hide Dot;
  }

  lemma {:induction false} DotScaled(x: seq<real>, r: seq<real>, s: real, n: nat)
    requires n <= |x| == |r| && forall i | 0 <= i < |x| :: r[i] == x[i] * s
    ensures Dot(r, 0, r, 0, n) == s * s * Dot(x, 0, x, 0, n)
  {
    if n > 0 {
      DotScaled(x, r, s, n - 1);
      SquareScaled(x[n - 1], s, Dot(x, 0, x, 0, n - 1));
    }
  }

  lemma SquareScaled(a: real, s: real, d: real)
    ensures s * s * d + a * s * (a * s) == s * s * (d + a * a)
  {
  }

  lemma Divided(s: real, v: real, d: real, n: real, r: real)
    requires n > 0.0 && v > 0.0 && s * s * v == 1.0 && r == s * s * d
    ensures r / n == d / n / v
  {
    var q, m := s * s, d / n;
    assert r == q * d && m * n == d && q * v == 1.0;
    assert q * m * v == m;
    assert r == q * m * n;
  }

  /** Each thread writes its stride of the output. */
  method ScaleByStride(x: seq<real>, weight: seq<real>, scale: real, threads: nat, out: array<real>)
    requires threads > 0 && |weight| == |x| == out.Length
    modifies out
    ensures out[..] == Scaled(x, weight, scale)
  {
    ghost var r := Scaled(x, weight, scale);
    for t := 0 to threads
      invariant forall i | 0 <= i < |x| && i % threads < t :: out[i] == r[i]
    {
      ScaleThread(x, weight, scale, threads, t, out);
    }
    assert forall i | 0 <= i < |x| :: i % threads < threads;
  }

  method ScaleThread(x: seq<real>, weight: seq<real>, scale: real, threads: nat, t: nat, out: array<real>)
    requires t < threads && |weight| == |x| == out.Length
    modifies out
    ensures forall i | 0 <= i < |x| ::
      out[i] == if i % threads == t then Scaled(x, weight, scale)[i] else old(out[i])
  {
    ghost var r := Scaled(x, weight, scale);
    var i := t;
    ModUnique(t, threads, 0, t);
    forall k: nat | k < t ensures k % threads != t { ModUnique(k, threads, 0, k); }
    while i < |x|
      invariant t <= i && i % threads == t
      invariant forall k | 0 <= k < |x| :: out[k] == if k % threads == t && k < i then r[k] else old(out[k])
    {
      out[i] := x[i] * scale * weight[i];
      NextIndex(i, threads);
      i := i + threads;
    }
  }

  lemma NextIndex(i: nat, b: nat)
    requires b > 0
    ensures (i + b) % b == i % b
    ensures forall k: nat :: i < k < i + b ==> k % b != i % b
  {
    SubtractMod(i + b, b);
    forall k: nat | i < k < i + b ensures k % b != i % b {
      var q, r := i / b, i % b;
      assert i == q * b + r;
      if k % b == r {
        var q2 := k / b;
        assert k == q2 * b + r;
        if q < q2 { MulStep(q, q2, b); } else if q2 < q { MulStep(q2, q, b); }
      }
    }
  }

  // ---------- the fused kernel ----------

  /** Normalisation and matrix-vector product in one kernel: the shared array of `|x|` floats first holds the
      1024 partial sums of squares, then the normalised input. Those 1024 slots exist only from 1024 inputs on. */
  method RmsNormSgemv(half: (bv8, bv8) -> real, rsqrt: real -> real, w: seq<bv8>, x: seq<real>, weight: seq<real>,
                      eps: real, outDim: nat, y: array<real>)
    requires |x| % 256 == 0 && |x| >= 1024 && |weight| == |x|
    requires outDim % 32 == 0 && y.Length == outDim && outDim * (|x| / 256) * 144 <= |w|
    modifies y
    ensures forall row: nat | row < outDim :: IsRowProduct(half, w, row, Normalised(rsqrt, x, weight, eps), y[row])
  {
    hide Dequant, Dot;
    var bpr := |x| / 256;
    ghost var n := Normalised(rsqrt, x, weight, eps);
    Pow1024();
    for blockIdx := 0 to outDim / 32
      invariant forall row: nat | row < blockIdx * 32 :: IsRowProduct(half, w, row, n, y[row])
    {
      var xs := new real[|x|];
      SquaresReduced(x, 1024, xs);
      var scale := rsqrt(xs[0] / |x| as real + eps);
      ScaleByStride(x, weight, scale, 1024, xs);
      for warp := 0 to 32
        invariant xs[..] == n
        invariant forall row: nat | row < blockIdx * 32 + warp :: IsRowProduct(half, w, row, n, y[row])
      {
        var row := blockIdx * 32 + warp;
        RowsFit(row, outDim, bpr);
        y[row] := WarpRow(half, w, row, bpr, xs);
      }
    }
  }

  lemma Pow1024()
    ensures PowerOfTwo(1024)
  {
    assert PowerOfTwo(4) by { assert PowerOfTwo(2); }
    assert PowerOfTwo(16) by { assert PowerOfTwo(8); }
    assert PowerOfTwo(64) by { assert PowerOfTwo(32); }
    assert PowerOfTwo(256) by { assert PowerOfTwo(128); }
    assert PowerOfTwo(512);
  }

  /** The fused kernel gives what the separate normalisation (256 threads) and product kernels give. */
  method FusedAgrees(half: (bv8, bv8) -> real, rsqrt: real -> real, w: seq<bv8>, x: seq<real>, weight: seq<real>,
                     eps: real, outDim: nat) returns (fused: seq<real>, separate: seq<real>)
    requires |x| % 256 == 0 && |x| >= 1024 && |weight| == |x|
    requires outDim % 32 == 0 && outDim * (|x| / 256) * 144 <= |w|
    ensures fused == separate && |fused| == outDim
    ensures forall row: nat | row < outDim :: IsRowProduct(half, w, row, Normalised(rsqrt, x, weight, eps), fused[row])
  {
    hide Dequant, Dot, Normalised;
    var y, z := new real[outDim], new real[outDim];
    RmsNormSgemv(half, rsqrt, w, x, weight, eps, outDim, y);
    var normed := new real[|x|];
    Pow1024();
    assert PowerOfTwo(256) by { assert PowerOfTwo(1024) && PowerOfTwo(512); }
    RmsNorm(rsqrt, x, weight, eps, 256, normed);
    Sgemv(half, w, normed[..], outDim, z);
    assert forall row: nat | row < outDim :: y[row] == z[row];
    fused, separate := y[..], z[..];
  }
}
