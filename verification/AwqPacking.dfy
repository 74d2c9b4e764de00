/** Packing of 2, 3, 4 and 8-bit integers into bytes. */
module AwqPacking {

  predicate SupportedBits(bits: nat) { bits == 2 || bits == 3 || bits == 4 || bits == 8 }

  /** The number of packed slots per chunk of bytes, and the size of a chunk. */
  function SlotsPerChunk(bits: nat): (n: nat)
    requires SupportedBits(bits)
    ensures n > 0
  {
    if bits == 2 then 4 else if bits == 4 then 2 else if bits == 3 then 8 else 1
  }

  function ChunkBytes(bits: nat): nat { if bits == 3 then 3 else 1 }

  function DivCeil(a: nat, b: nat): nat
    requires b > 0
  {
    (a + b - 1) / b
  }

  /** The number of bytes allocated for `total` values. */
  function DataLen(bits: nat, total: nat): nat
    requires SupportedBits(bits)
  {
    DivCeil(total, SlotsPerChunk(bits)) * ChunkBytes(bits)
  }

  /** The 24 bits of a 3-byte chunk, least significant byte first. */
  function Word(a: bv8, b: bv8, c: bv8): bv32 {
    (a as bv32) | ((b as bv32) << 8) | ((c as bv32) << 16)
  }

  predicate IsShift3(s: bv32) {
    s == 0 || s == 3 || s == 6 || s == 9 || s == 12 || s == 15 || s == 18 || s == 21
  }

  predicate IsShift2(s: bv8) { s == 0 || s == 2 || s == 4 || s == 6 }

  /** Shift amounts: three or two bits per place. */
  function Shift3(within: nat): (s: bv32)
    requires within < 8
    ensures IsShift3(s)
  {
    if within == 0 then 0 else if within == 1 then 3 else if within == 2 then 6 else if within == 3 then 9
    else if within == 4 then 12 else if within == 5 then 15 else if within == 6 then 18 else 21
  }

  function Shift2(within: nat): (s: bv8)
    requires within < 4
    ensures IsShift2(s)
  {
    if within == 0 then 0 else if within == 1 then 2 else if within == 2 then 4 else 6
  }

  lemma ShiftAmounts(i: nat, k: nat)
    ensures i < 8 ==> Shift3(i) as int == i * 3
    ensures i < 4 ==> Shift2(i) as int == i * 2
    ensures i < 8 && k < 8 ==> (Shift3(i) == Shift3(k) <==> i == k)
    ensures i < 4 && k < 4 ==> (Shift2(i) == Shift2(k) <==> i == k)
  {
  }

  function Bits2(x: bv8, s: bv8): bv8
    requires IsShift2(s)
  {
    (x >> s) & 0x3
  }

  function Bits3(a: bv8, b: bv8, c: bv8, s: bv32): bv8
    requires IsShift3(s)
  {
    ((Word(a, b, c) >> s) & 0x7) as bv8
  }

  /** The low or the high half of a byte. */
  function Half(x: bv8, low: bool): bv8 { if low then x & 0x0F else (x >> 4) & 0x0F }

  /** The bits of slot `k`. */
  function Field(bits: nat, data: seq<bv8>, k: nat): bv8
    requires SupportedBits(bits) && (k / SlotsPerChunk(bits) + 1) * ChunkBytes(bits) <= |data|
  {
    if bits == 8 then data[k]
    else if bits == 4 then Half(data[k / 2], k % 2 == 0)
    else if bits == 2 then Bits2(data[k / 4], Shift2(k % 4))
    else
      var base := k / 8 * 3;
      Bits3(data[base], data[base + 1], data[base + 2], Shift3(k % 8))
  }

  /** Slots of two, four and eight bits fill a byte from its low end up. */
  lemma SlotLayout(bits: nat, data: seq<bv8>, k: nat)
    requires SupportedBits(bits) && (k / SlotsPerChunk(bits) + 1) * ChunkBytes(bits) <= |data|
    ensures bits == 8 ==> Field(bits, data, k) == data[k]
    ensures bits == 4 ==>
      var x := data[k / 2]; Field(bits, data, k) == if k % 2 == 0 then x % 0x10 else x / 0x10
    ensures bits == 2 ==>
      var x := data[k / 4]; Field(bits, data, k) == [x % 4, x / 4 % 4, x / 0x10 % 4, x / 0x40][k % 4]
  {
    hide Bits2, Bits3, Half, Shift2, Shift3;
    if bits == 2 { ByteParts(data[k / 4], k % 4); }
    if bits == 4 { ByteHalves(data[k / 2]); }
  }

  /** The bits `3 * i` to `3 * i + 2` of three bytes, the first of them lowest. */
  function ThreeBits(a: bv8, b: bv8, c: bv8, i: nat): bv32
    requires i < 8
  {
    var x := (a as bv32) | ((b as bv32) << 8) | ((c as bv32) << 16);
    [x & 7, (x >> 3) & 7, (x >> 6) & 7, (x >> 9) & 7, (x >> 12) & 7, (x >> 15) & 7, (x >> 18) & 7, x >> 21][i]
  }

  /** Slots of three bits fill three bytes from the low end up. */
  lemma SlotLayout3(data: seq<bv8>, k: nat)
    requires (k / 8 + 1) * 3 <= |data|
    ensures var i := k / 8 * 3;
      Field(3, data, k) as bv32 == ThreeBits(data[i], data[i + 1], data[i + 2], k % 8)
  {
    hide Bits2, Bits3, Half, Shift2, Shift3, ThreeBits;
    var i := k / 8 * 3;
    WordPart(data[i], data[i + 1], data[i + 2], k % 8);
  }

  lemma ByteParts(x: bv8, i: nat)
    requires i < 4
    ensures Bits2(x, Shift2(i)) == [x % 4, x / 4 % 4, x / 0x10 % 4, x / 0x40][i]
  {
  }

  lemma ByteHalves(x: bv8)
    ensures Half(x, true) == x % 0x10 && Half(x, false) == x / 0x10
  {
  }

  lemma WordPart(a: bv8, b: bv8, c: bv8, i: nat)
    requires i < 8
    ensures Bits3(a, b, c, Shift3(i)) as bv32 == ThreeBits(a, b, c, i)
  {
    ZeroSlot(a, b, c, Shift3(i));
    if i == 7 { TopBits(a, b, c); }
  }

  lemma TopBits(a: bv8, b: bv8, c: bv8)
    ensures (Word(a, b, c) >> 21) & 0x7 == Word(a, b, c) >> 21
  {
  }

  // ---------- setting one slot by OR ----------

  lemma Or4(x: bv8, u: bv8)
    requires u <= 0x0F
    ensures x & 0x0F == 0 ==> (x | (u & 0x0F)) & 0x0F == u
    ensures ((x | (u & 0x0F)) >> 4) & 0x0F == (x >> 4) & 0x0F
    ensures (x >> 4) & 0x0F == 0 ==> ((x | ((u & 0x0F) << 4)) >> 4) & 0x0F == u
    ensures (x | ((u & 0x0F) << 4)) & 0x0F == x & 0x0F
  {
  }

  lemma Or2(x: bv8, u: bv8, s: bv8, t: bv8)
    requires u <= 0x3 && IsShift2(s) && IsShift2(t) && Bits2(x, s) == 0
    ensures Bits2(x | ((u & 0x3) << s), t) == if s == t then u else Bits2(x, t)
  {
  }

  lemma Or3(w: bv32, v: bv32, s: bv32, t: bv32)
    requires v <= 7 && IsShift3(s) && IsShift3(t) && (w >> s) & 0x7 == 0
    ensures ((w | (v << s)) >> t) & 0x7 == if s == t then v else (w >> t) & 0x7
  {
  }

  /** A value of up to three bits shifted into place touches only the 24 bits of its chunk. */
  lemma SpreadBytes(a: bv8, b: bv8, c: bv8, v: bv32, s: bv32)
    requires v <= 7 && IsShift3(s)
    ensures var x := v << s;
      Word(a | ((x & 0xFF) as bv8), b | (((x >> 8) & 0xFF) as bv8), c | (((x >> 16) & 0xFF) as bv8))
      == Word(a, b, c) | x
  {
  }

  lemma ZeroSlot(a: bv8, b: bv8, c: bv8, s: bv32)
    requires IsShift3(s)
    ensures (((Word(a, b, c) >> s) & 0x7) as bv8) as bv32 == (Word(a, b, c) >> s) & 0x7
  {
  }

  /** Slots are equal exactly if chunk and place within the chunk are. */
  lemma SlotParts(k: nat, i: nat, n: nat)
    requires n > 0
    ensures k == i <==> k / n == i / n && k % n == i % n
  {
    assert k == k / n * n + k % n && i == i / n * n + i % n;
  }

  /** Slot `i`, still zero, receives `u`; every other slot stays. */
  ghost predicate OnlySlot(bits: nat, before: seq<bv8>, after: seq<bv8>, i: nat, u: bv8)
    requires SupportedBits(bits)
  {
    |after| == |before| &&
    forall k: nat | (k / SlotsPerChunk(bits) + 1) * ChunkBytes(bits) <= |before| ::
      Field(bits, after, k) == if k == i then u else Field(bits, before, k)
  }

  predicate FitsIn(u: bv8, bits: nat) {
    (bits == 2 ==> u <= 0x3) && (bits == 3 ==> u <= 0x7) && (bits == 4 ==> u <= 0x0F)
  }

  method SetSlot(bits: nat, bytes: array<bv8>, i: nat, u: bv8)
    requires SupportedBits(bits) && (i / SlotsPerChunk(bits) + 1) * ChunkBytes(bits) <= bytes.Length
    requires FitsIn(u, bits) && Field(bits, bytes[..], i) == 0
    modifies bytes
    ensures OnlySlot(bits, old(bytes[..]), bytes[..], i, u)
  {
    if bits == 4 {
      SetSlot4(bytes, i, u);
    } else if bits == 8 {
      bytes[i] := u;
    } else if bits == 3 {
      SetSlot3(bytes, i, u);
    } else {
      SetSlot2(bytes, i, u);
    }
  }

  method SetSlot4(bytes: array<bv8>, i: nat, u: bv8)
    requires i / 2 < bytes.Length && u <= 0x0F && Field(4, bytes[..], i) == 0
    modifies bytes
    ensures OnlySlot(4, old(bytes[..]), bytes[..], i, u)
  {
    hide Half, OnlySlot;
    var byteIdx := i / 2;
    ghost var x, low := bytes[byteIdx], i % 2 == 0;
    if i % 2 == 0 {
      bytes[byteIdx] := bytes[byteIdx] | (u & 0x0F);
    } else {
      bytes[byteIdx] := bytes[byteIdx] | ((u & 0x0F) << 4);
    }
    Slot4(x, bytes[byteIdx], u, low);
    assert bytes[..] == old(bytes[..])[byteIdx := bytes[byteIdx]];
    OnlyHalf(old(bytes[..]), bytes[byteIdx], i, u);
  }

  lemma OnlyHalf(before: seq<bv8>, y: bv8, i: nat, u: bv8)
    requires i / 2 < |before|
    requires Half(y, i % 2 == 0) == u && Half(y, i % 2 != 0) == Half(before[i / 2], i % 2 != 0)
    ensures OnlySlot(4, before, before[i / 2 := y], i, u)
  {
    hide Half;
    var after := before[i / 2 := y];
    forall k: nat | (k / 2 + 1) * 1 <= |before|
      ensures Field(4, after, k) == if k == i then u else Field(4, before, k)
    {
      if k / 2 == i / 2 { assert k == i || (k % 2 == 0) == (i % 2 != 0); }
    }
  }

  /** One half of a byte, still zero, receives `u`; the other half stays. */
  lemma Slot4(x: bv8, y: bv8, u: bv8, low: bool)
    requires u <= 0x0F && y == if low then x | (u & 0x0F) else x | ((u & 0x0F) << 4)
    requires Half(x, low) == 0
    ensures Half(y, low) == u && Half(y, !low) == Half(x, !low)
  {
    Or4(x, u);
  }

  method SetSlot2(bytes: array<bv8>, i: nat, u: bv8)
    requires i / 4 < bytes.Length && u <= 0x3 && Field(2, bytes[..], i) == 0
    modifies bytes
    ensures OnlySlot(2, old(bytes[..]), bytes[..], i, u)
  {
    hide Shift2, Bits2;
    var byteIdx, shift := i / 4, Shift2(i % 4);
    ghost var x := bytes[byteIdx];
    bytes[byteIdx] := bytes[byteIdx] | ((u & 0x3) << shift);
    forall k: nat | (k / 4 + 1) * 1 <= bytes.Length
      ensures Field(2, bytes[..], k) == if k == i then u else Field(2, old(bytes[..]), k)
    {
      SlotParts(k, i, 4);
      ShiftAmounts(i % 4, k % 4);
      if k / 4 == byteIdx { Or2(x, u, shift, Shift2(k % 4)); }
    }
  }

  lemma OrSlot3(a: bv8, b: bv8, c: bv8, u: bv8, s: bv32, t: bv32)
    requires u <= 0x7 && IsShift3(s) && IsShift3(t) && Bits3(a, b, c, s) == 0
    ensures var x := (u as bv32) << s;
      Bits3(a | ((x & 0xFF) as bv8), b | (((x >> 8) & 0xFF) as bv8), c | (((x >> 16) & 0xFF) as bv8), t)
      == if s == t then u else Bits3(a, b, c, t)
  {
    var v := u as bv32;
    assert v <= 7;
    SpreadBytes(a, b, c, v, s);
    ZeroSlot(a, b, c, s);
    Or3(Word(a, b, c), v, s, t);
  }

  /** Chunks of different slots do not overlap. */
  lemma ChunksApart(i: nat, k: nat)
    requires k / 8 != i / 8
    ensures k / 8 * 3 + 2 < i / 8 * 3 || i / 8 * 3 + 2 < k / 8 * 3
  {
  }

  /** Slot `k` of a 3-bit row, given its chunk. */
  lemma FieldIs(data: seq<bv8>, k: nat, base: nat)
    requires base == k / 8 * 3 && base + 2 < |data|
    ensures Field(3, data, k) == Bits3(data[base], data[base + 1], data[base + 2], Shift3(k % 8))
  {
    hide Shift3, Bits3;
  }

  lemma OtherChunk(before: seq<bv8>, after: seq<bv8>, base: nat, other: nat, k: nat)
    requires |after| == |before| && base + 2 < |before| && other == k / 8 * 3 && other + 2 < |before|
    requires forall j | 0 <= j < |before| && (j < base || base + 2 < j) :: after[j] == before[j]
    requires other + 2 < base || base + 2 < other
    ensures Field(3, after, k) == Field(3, before, k)
  {
    hide Shift3, Bits3, Field;
    FieldIs(before, k, other);
    FieldIs(after, k, other);
  }

  /** Writing the three bytes of one chunk as `OrSlot3` describes changes slot `i` only. */
  lemma OnlySlot3(before: seq<bv8>, after: seq<bv8>, base: nat, i: nat, u: bv8)
    requires |after| == |before| && base == i / 8 * 3 && base + 2 < |before| && u <= 0x7
    requires forall j | 0 <= j < |before| && (j < base || base + 2 < j) :: after[j] == before[j]
    requires Field(3, before, i) == 0
    requires OrOf(after, before, base, (u as bv32) << Shift3(i % 8))
    ensures OnlySlot(3, before, after, i, u)
  {
    hide Shift3, Bits3, Field, OrOf;
    FieldIs(before, i, base);
    forall k: nat | (k / 8 + 1) * 3 <= |before|
      ensures Field(3, after, k) == if k == i then u else Field(3, before, k)
    {
      SlotParts(k, i, 8);
      if k / 8 == i / 8 {
        FieldIs(before, k, base);
        FieldIs(after, k, base);
        ShiftAmounts(i % 8, k % 8);
        OrChunk(before, after, base, u, Shift3(i % 8), Shift3(k % 8));
      } else {
        ChunksApart(i, k);
        OtherChunk(before, after, base, k / 8 * 3, k);
      }
    }
  }

  /** The three bytes at `base` are those of `before` with the 24 low bits of `x` OR-ed in. */
  ghost predicate OrOf(after: seq<bv8>, before: seq<bv8>, base: nat, x: bv32)
    requires |after| == |before| && base + 2 < |before|
  {
    after[base] == before[base] | ((x & 0xFF) as bv8) &&
    after[base + 1] == before[base + 1] | (((x >> 8) & 0xFF) as bv8) &&
    after[base + 2] == before[base + 2] | (((x >> 16) & 0xFF) as bv8)
  }

  lemma OrChunk(before: seq<bv8>, after: seq<bv8>, base: nat, u: bv8, s: bv32, t: bv32)
    requires |after| == |before| && base + 2 < |before|
    requires u <= 0x7 && IsShift3(s) && IsShift3(t)
    requires Bits3(before[base], before[base + 1], before[base + 2], s) == 0
    requires OrOf(after, before, base, (u as bv32) << s)
    ensures Bits3(after[base], after[base + 1], after[base + 2], t)
      == if s == t then u else Bits3(before[base], before[base + 1], before[base + 2], t)
  {
    hide Bits3;
    OrSlot3(before[base], before[base + 1], before[base + 2], u, s, t);
  }

  method SetSlot3(bytes: array<bv8>, i: nat, u: bv8)
    requires (i / 8 + 1) * 3 <= bytes.Length && u <= 0x7 && Field(3, bytes[..], i) == 0
    modifies bytes
    ensures OnlySlot(3, old(bytes[..]), bytes[..], i, u)
  {
    hide Shift3, Bits3, Field, OnlySlot, OrOf;
    var base, shift := i / 8 * 3, Shift3(i % 8);
    ghost var before := bytes[..];
    SpreadOver(bytes, base, (u as bv32) << shift);
    OnlySlot3(before, bytes[..], base, i, u);
  }

  /** ORs the 24 low bits of `bits24` into the three bytes at `base`. */
  method SpreadOver(bytes: array<bv8>, base: nat, bits24: bv32)
    requires base + 2 < bytes.Length
    modifies bytes
    ensures OrOf(bytes[..], old(bytes[..]), base, bits24)
    ensures forall j | 0 <= j < bytes.Length && (j < base || base + 2 < j) :: bytes[..][j] == old(bytes[..])[j]
  {
    bytes[base] := bytes[base] | ((bits24 & 0xFF) as bv8);
    if base + 1 < bytes.Length {
      bytes[base + 1] := bytes[base + 1] | (((bits24 >> 8) & 0xFF) as bv8);
    }
    if base + 2 < bytes.Length {
      bytes[base + 2] := bytes[base + 2] | (((bits24 >> 16) & 0xFF) as bv8);
    }
  }

  // ---------- signed values ----------

  function MinVal(bits: nat): int { if bits == 2 then -2 else if bits == 3 then -4 else if bits == 4 then -8 else -128 }

  function MaxVal(bits: nat): int { if bits == 2 then 1 else if bits == 3 then 3 else if bits == 4 then 7 else 127 }

  /** The byte of value `n`, built by counting up: the solver is slow at a direct conversion. */
  function ToByte(n: nat): (u: bv8)
    requires n < 256
    ensures u as int == n
    ensures (n <= 3 ==> u <= 0x3) && (n <= 7 ==> u <= 0x7) && (n <= 15 ==> u <= 0x0F)
  {
    if n == 0 then 0 else ToByte(n - 1) + 1
  }

  /** The stored bits of a value: offset from the minimum, or two's complement for 8 bits. */
  function Encode(bits: nat, q: int): (u: bv8)
    requires SupportedBits(bits) && MinVal(bits) <= q <= MaxVal(bits)
    ensures FitsIn(u, bits)
  {
    if bits == 8 then ToByte(if q < 0 then q + 256 else q) else ToByte(q - MinVal(bits))
  }

  function Decode(bits: nat, u: bv8): int {
    if bits == 8 then if u as int >= 128 then u as int - 256 else u as int
    else u as int + MinVal(bits)
  }

  /** Up to four bits store the distance from the least value, eight bits the value modulo 256. */
  lemma EncodedValue(bits: nat, q: int)
    requires SupportedBits(bits) && MinVal(bits) <= q <= MaxVal(bits)
    ensures Encode(bits, q) as int ==
      match bits case 2 => q + 2 case 3 => q + 4 case 4 => q + 8 case _ => if q < 0 then q + 256 else q
  {
    hide ToByte;
  }

  lemma DecodeEncode(bits: nat, q: int)
    requires SupportedBits(bits) && MinVal(bits) <= q <= MaxVal(bits)
    ensures Decode(bits, Encode(bits, q)) == q
  {
    hide ToByte;
  }

  /** A read behind the data gives 0, any other read decodes its slot. */
  function ReadSlot(bits: nat, data: seq<bv8>, k: nat): int {
    if !SupportedBits(bits) || (k / SlotsPerChunk(bits) + 1) * ChunkBytes(bits) > |data| then 0
    else Decode(bits, Field(bits, data, k))
  }

  /** Reads that give 0: other bit widths, and slots whose byte, or one of whose three bytes, is behind the data. */
  lemma ReadBehind(bits: nat, data: seq<bv8>, k: nat)
    requires match bits
      case 2 => k / 4 >= |data|
      case 3 => k / 8 * 3 + 2 >= |data|
      case 4 => k / 2 >= |data|
      case 8 => k >= |data|
      case _ => true
    ensures ReadSlot(bits, data, k) == 0
  {
  }

  /** Every one of `total` slots lies inside the allocated bytes. */
  lemma SlotFits(bits: nat, total: nat, k: nat)
    requires SupportedBits(bits) && k < total
    ensures (k / SlotsPerChunk(bits) + 1) * ChunkBytes(bits) <= DataLen(bits, total)
  {
    var n := SlotsPerChunk(bits);
    assert k / n + 1 <= (total + n - 1) / n;
  }

  /** Freshly zeroed bytes have every slot zero. */
  lemma ZeroFields(bits: nat, data: seq<bv8>, k: nat)
    requires SupportedBits(bits) && (k / SlotsPerChunk(bits) + 1) * ChunkBytes(bits) <= |data|
    requires forall i | 0 <= i < |data| :: data[i] == 0
    ensures Field(bits, data, k) == 0
  {
    if bits == 2 { ZeroShift2(Shift2(k % 4)); }
    if bits == 3 { ZeroShift3(Shift3(k % 8)); }
  }

  lemma ZeroShift2(s: bv8)
    requires s <= 8
    ensures ((0 as bv8) >> s) & 0x3 == 0
  {
  }

  lemma ZeroShift3(s: bv32)
    requires s <= 32
    ensures ((Word(0, 0, 0) >> s) & 0x7) as bv8 == 0
  {
  }
}
