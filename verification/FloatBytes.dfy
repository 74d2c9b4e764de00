/** 32-bit floats as bit patterns, and their four bytes, least significant first. */
module FloatBytes {
  import opened Arith

  type Float = bv32

  type Byte = bv8

  function Bytes(x: Float): (b: seq<Byte>)
    ensures |b| == 4
  {
    [(x & 0xFF) as bv8, ((x >> 8) & 0xFF) as bv8, ((x >> 16) & 0xFF) as bv8, ((x >> 24) & 0xFF) as bv8]
  }

  function FromBytes(b: seq<Byte>): Float
    requires |b| == 4
  {
    (b[0] as bv32) | ((b[1] as bv32) << 8) | ((b[2] as bv32) << 16) | ((b[3] as bv32) << 24)
  }

  lemma Join(x: Float)
    ensures (((x & 0xFF) as bv8) as bv32) | ((((x >> 8) & 0xFF) as bv8) as bv32 << 8)
      | ((((x >> 16) & 0xFF) as bv8) as bv32 << 16) | ((((x >> 24) & 0xFF) as bv8) as bv32 << 24) == x
  {
  }

  lemma ByteRoundTrip(x: Float)
    ensures FromBytes(Bytes(x)) == x
  {
    Join(x);
  }

  /** The first byte counts least. */
  lemma LittleEndian(x: Float)
    ensures var b := Bytes(x);
      x == b[0] as bv32 + b[1] as bv32 * 0x100 + b[2] as bv32 * 0x1_0000 + b[3] as bv32 * 0x100_0000
  {
  }

  /** The bytes of a vector. */
  function Encode(v: seq<Float>): (b: seq<Byte>)
    ensures |b| == 4 * |v|
  {
    if v == [] then [] else Encode(v[..|v| - 1]) + Bytes(v[|v| - 1])
  }

  /** The vector that a run of bytes stands for. */
  function Decode(b: seq<Byte>): (v: seq<Float>)
    requires |b| % 4 == 0
    ensures |v| == |b| / 4
  {
    seq(|b| / 4, i requires 0 <= i < |b| / 4 => FromBytes(b[4 * i .. 4 * i + 4]))
  }

  lemma {:induction false} EncodedAt(v: seq<Float>, i: nat)
    requires i < |v|
    ensures Encode(v)[4 * i .. 4 * i + 4] == Bytes(v[i])
  {
    hide Bytes;
    var n := |v| - 1;
    if i < n {
      EncodedAt(v[..n], i);
      assert Encode(v)[4 * i .. 4 * i + 4] == Encode(v[..n])[4 * i .. 4 * i + 4];
    }
  }

  /** Any run of whole floats inside encoded bytes decodes to the floats that were encoded. */
  lemma DecodeSlice(v: seq<Float>, from: nat, to: nat)
    requires from <= to <= |v|
    ensures |Encode(v)[4 * from .. 4 * to]| % 4 == 0
    ensures Decode(Encode(v)[4 * from .. 4 * to]) == v[from..to]
  {
    hide Bytes, FromBytes, Encode;
    var b := Encode(v)[4 * from .. 4 * to];
    forall i | 0 <= i < to - from ensures Decode(b)[i] == v[from..to][i] {
      SliceOfSlice(Encode(v), 4 * from, 4 * to - 4 * from, 4 * i, 4);
      EncodedAt(v, from + i);
      ByteRoundTrip(v[from + i]);
    }
  }

  lemma {:induction false} EncodeAppend(v: seq<Float>, w: seq<Float>)
    ensures Encode(v + w) == Encode(v) + Encode(w)
  {
    if w == [] {
      assert v + w == v;
    } else {
      var n := |w| - 1;
      EncodeAppend(v, w[..n]);
      assert (v + w)[..|v + w| - 1] == v + w[..n];
    }
  }

  // ---------- rows of equal width ----------

  function Flatten(rows: seq<seq<Float>>): seq<Float> {
    if rows == [] then [] else Flatten(rows[..|rows| - 1]) + rows[|rows| - 1]
  }

  predicate Wide(rows: seq<seq<Float>>, n: nat) { forall i | 0 <= i < |rows| :: |rows[i]| == n }

  lemma {:induction false} FlattenLength(rows: seq<seq<Float>>, n: nat)
    requires Wide(rows, n)
    ensures |Flatten(rows)| == |rows| * n
  {
    if rows == [] {
    } else {
      FlattenLength(rows[..|rows| - 1], n);
      assert |rows| * n == (|rows| - 1) * n + n;
    }
  }

  lemma {:induction false} FlattenAppend(a: seq<seq<Float>>, b: seq<seq<Float>>)
    ensures Flatten(a + b) == Flatten(a) + Flatten(b)
  {
    if b == [] {
      assert a + b == a;
    } else {
      var n := |b| - 1;
      FlattenAppend(a, b[..n]);
      assert (a + b)[..|a + b| - 1] == a + b[..n] && (a + b)[|a + b| - 1] == b[n];
      ConcatAssoc(Flatten(a), Flatten(b[..n]), b[n]);
    }
  }

  /** Row `i` of the flat storage. */
  lemma {:induction false} FlattenAt(rows: seq<seq<Float>>, n: nat, i: nat)
    requires Wide(rows, n) && i < |rows|
    ensures i * n + n <= |Flatten(rows)| == |rows| * n
    ensures Flatten(rows)[i * n .. i * n + n] == rows[i]
  {
    var last := |rows| - 1;
    FlattenLength(rows, n);
    FlattenLength(rows[..last], n);
    MulStep(i, |rows|, n);
    if i < last {
      FlattenAt(rows[..last], n, i);
      SliceOfFront(Flatten(rows[..last]), rows[last], i * n, i * n + n);
    }
  }

  lemma SliceOfFront(a: seq<Float>, b: seq<Float>, from: nat, to: nat)
    requires from <= to <= |a|
    ensures (a + b)[from..to] == a[from..to]
  {
  }
}
