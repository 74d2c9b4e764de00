/** The vector store as it is written: flat vectors, a chunk list and an id index that change together, and a
    directory with three files. */
module FileStore {
  import opened Arith
  import opened ChunkFile
  import opened FloatBytes
  import opened StableSort
  import opened StoreModel
  import opened Wrappers

  datatype Hit = Hit(chunkId: string, score: real)

  /** The three files of a store. */
  class Directory {
    var manifest: Option<Manifest>
    var vectors: Option<seq<Byte>>
    var chunks: Option<string>

    function Files(): Disk
      reads this
    {
      Disk(manifest, vectors, chunks)
    }
  }

  /** All that is assumed of the normalisation: it keeps the length of a vector. */
  ghost predicate KeepsLength(normalize: Vec -> Vec) { forall v :: |normalize(v)| == |v| }

  function Scores(rows: seq<Row>, query: Vec, dot: (Vec, Vec) -> real): (r: seq<real>)
    ensures |r| == |rows|
  {
    seq(|rows|, i requires 0 <= i < |rows| => dot(query, rows[i].vector))
  }

  /** The hits of the best rows. */
  ghost function BestHits(rows: seq<Row>, scores: seq<real>, k: nat): seq<Hit>
    requires |scores| == |rows|
  {
    BestMeaning(scores, k);
    var b := Best(scores, k);
    seq(|b|, i requires 0 <= i < |b| => Hit(rows[b[i].index].chunk.id, b[i].score))
  }

  // ---------- flat vectors ----------

  lemma RowSlice(rows: seq<Row>, dim: nat, i: nat)
    requires Wide(VectorsOf(rows), dim) && i < |rows|
    ensures 0 <= i * dim && i * dim + dim <= |Flatten(VectorsOf(rows))|
    ensures Flatten(VectorsOf(rows))[i * dim .. i * dim + dim] == rows[i].vector
  {
    FlattenAt(VectorsOf(rows), dim, i);
  }

  lemma AppendRow(rows: seq<Row>, r: Row)
    ensures Flatten(VectorsOf(rows + [r])) == Flatten(VectorsOf(rows)) + r.vector
    ensures ChunksOf(rows + [r]) == ChunksOf(rows) + [r.chunk]
  {
    var vs := VectorsOf(rows + [r]);
    assert vs[..|rows|] == VectorsOf(rows);
  }

  lemma {:induction false} ReplaceVector(vs: seq<Vec>, dim: nat, i: nat, v: Vec)
    requires Wide(vs, dim) && i < |vs| && |v| == dim
    ensures 0 <= i * dim && i * dim + dim <= |Flatten(vs)|
    ensures Flatten(vs[i := v]) == Flatten(vs)[..i * dim] + v + Flatten(vs)[i * dim + dim..]
  {
    var n := |vs| - 1;
    FlattenLength(vs, dim);
    FlattenLength(vs[..n], dim);
    MulStep(i, |vs|, dim);
    if i < n {
      ReplaceVector(vs[..n], dim, i, v);
      assert vs[i := v][..n] == vs[..n][i := v];
      TailMoves(Flatten(vs[..n]), i * dim, v, vs[n]);
    } else {
      assert vs[i := v][..n] == vs[..n];
      assert Flatten(vs)[..n * dim] == Flatten(vs[..n]);
    }
  }

  lemma TailMoves(a: Vec, from: nat, v: Vec, tail: Vec)
    requires from + |v| <= |a|
    ensures (a + tail)[..from] + v + (a + tail)[from + |v|..] == a[..from] + v + a[from + |v|..] + tail
  {
  }

  lemma ReplaceRow(rows: seq<Row>, dim: nat, i: nat, r: Row)
    requires Wide(VectorsOf(rows), dim) && i < |rows| && |r.vector| == dim
    ensures 0 <= i * dim && i * dim + dim <= |Flatten(VectorsOf(rows))|
    ensures Flatten(VectorsOf(rows[i := r]))
      == Flatten(VectorsOf(rows))[..i * dim] + r.vector + Flatten(VectorsOf(rows))[i * dim + dim..]
    ensures ChunksOf(rows[i := r]) == ChunksOf(rows)[i := r.chunk]
  {
    ReplaceVector(VectorsOf(rows), dim, i, r.vector);
    assert VectorsOf(rows[i := r]) == VectorsOf(rows)[i := r.vector];
  }

  // ---------- the id index ----------

  lemma {:induction false} IndexMeaning(rows: seq<Row>, id: string)
    requires Distinct(rows)
    ensures id in IndexOf(ChunksOf(rows)) <==> FindId(rows, id) < |rows|
    ensures id in IndexOf(ChunksOf(rows)) ==> IndexOf(ChunksOf(rows))[id] == FindId(rows, id)
  {
    hide FindId;
    if rows != [] {
      var n := |rows| - 1;
      IndexMeaning(rows[..n], id);
      assert ChunksOf(rows)[..n] == ChunksOf(rows[..n]);
      var p := FindId(rows[..n], id);
      if p < n {
        FindIs(rows, p);
      } else if rows[n].chunk.id == id {
        FindIs(rows, n);
      }
    }
  }

  /** The index depends on the ids alone. */
  lemma {:induction false} SameIndex(a: seq<Chunk>, b: seq<Chunk>)
    requires |a| == |b| && forall i | 0 <= i < |a| :: a[i].id == b[i].id
    ensures IndexOf(a) == IndexOf(b)
  {
    if a != [] { SameIndex(a[..|a| - 1], b[..|a| - 1]); }
  }

  lemma IndexAppend(chunks: seq<Chunk>, c: Chunk)
    ensures IndexOf(chunks + [c]) == IndexOf(chunks)[c.id := |chunks|]
  {
    assert (chunks + [c])[..|chunks|] == chunks;
  }

  // ---------- rows read from files ----------

  ghost function RowsOf(vectors: Vec, chunks: seq<Chunk>, dim: nat): (r: seq<Row>)
    requires |vectors| == |chunks| * dim
    ensures |r| == |chunks|
  {
    seq(|chunks|, i requires 0 <= i < |chunks| =>
      (MulStep(i, |chunks|, dim); Row(chunks[i], vectors[i * dim .. i * dim + dim])))
  }

  lemma {:induction false} RowsOfHolds(vectors: Vec, chunks: seq<Chunk>, dim: nat)
    requires |vectors| == |chunks| * dim
    ensures Flatten(VectorsOf(RowsOf(vectors, chunks, dim))) == vectors
    ensures ChunksOf(RowsOf(vectors, chunks, dim)) == chunks && Wide(VectorsOf(RowsOf(vectors, chunks, dim)), dim)
  {
    if chunks == [] {
      assert vectors == [];
    } else {
      var n := |chunks| - 1;
      assert |chunks| * dim == n * dim + dim;
      RowsOfHolds(vectors[..n * dim], chunks[..n], dim);
      RowsOfPrefix(vectors, chunks, dim, n);
      var rows := RowsOf(vectors, chunks, dim);
      assert VectorsOf(rows)[..n] == VectorsOf(rows[..n]);
      assert vectors == vectors[..n * dim] + vectors[n * dim .. n * dim + dim];
    }
  }

  lemma RowsOfAt(vectors: Vec, chunks: seq<Chunk>, dim: nat, i: nat)
    requires |vectors| == |chunks| * dim && i < |chunks|
    ensures 0 <= i * dim && i * dim + dim <= |vectors|
    ensures RowsOf(vectors, chunks, dim)[i] == Row(chunks[i], vectors[i * dim .. i * dim + dim])
  {
    MulStep(i, |chunks|, dim);
  }

  lemma PrefixSlice(s: Vec, m: nat, a: nat, b: nat)
    requires a <= b <= m <= |s|
    ensures s[..m][a..b] == s[a..b]
  {
  }

  lemma RowsOfPrefix(vectors: Vec, chunks: seq<Chunk>, dim: nat, n: nat)
    requires |vectors| == |chunks| * dim && n <= |chunks| && n * dim <= |vectors|
    ensures RowsOf(vectors[..n * dim], chunks[..n], dim) == RowsOf(vectors, chunks, dim)[..n]
  {
    hide RowsOf;
    forall i | 0 <= i < n ensures RowsOf(vectors[..n * dim], chunks[..n], dim)[i] == RowsOf(vectors, chunks, dim)[i] {
      RowsOfAt(vectors[..n * dim], chunks[..n], dim, i);
      RowsOfAt(vectors, chunks, dim, i);
      PrefixSlice(vectors, n * dim, i * dim, i * dim + dim);
    }
  }

  // ---------- the store ----------

  class FileStore {
    const dir: Directory
    const dim: nat
    const tag: string
    const codec: Codec
    var vectors: Vec
    var chunks: seq<Chunk>
    var chunkIndex: map<string, nat>
    var dirty: bool
    ghost var rows: seq<Row>

    /** Flat vectors, chunk list and id index agree with one list of rows. */
    ghost predicate Valid()
      reads this
    {
      && RowsOk(rows, dim)
      && vectors == Flatten(VectorsOf(rows)) && chunks == ChunksOf(rows) && chunkIndex == IndexOf(chunks)
    }

    function State(): Store
      reads this
    {
      Store(dim, tag, vectors, chunks, chunkIndex, dirty)
    }

    constructor (dir: Directory, dim: nat, tag: string, codec: Codec, vectors: Vec, chunks: seq<Chunk>,
                 chunkIndex: map<string, nat>, dirty: bool, ghost rows: seq<Row>)
      ensures this.dir == dir && this.codec == codec && State() == Store(dim, tag, vectors, chunks, chunkIndex, dirty)
      ensures this.rows == rows
    {
      this.dir, this.dim, this.tag, this.codec := dir, dim, tag, codec;
      this.vectors, this.chunks, this.chunkIndex, this.dirty, this.rows := vectors, chunks, chunkIndex, dirty, rows;
    }

    /** A vector with a wrong length is refused; any other put updates the rows. */
    method Put(chunk: Chunk, vector: Vec, normalize: Vec -> Vec) returns (r: Result<(), StoreError>)
      requires Valid() && KeepsLength(normalize)
      modifies this
      ensures Valid()
      ensures |vector| != dim ==> r == Err(DimMismatch) && rows == old(rows) && State() == old(State())
      ensures |vector| == dim ==>
        r == Ok(()) && dirty && rows == PutRows(old(rows), Row(chunk, normalize(vector)))
    {
      hide Flatten, IndexOf, FindId, Distinct;
      if |vector| != dim { return Err(DimMismatch); }
      var v := normalize(vector);
      ghost var row := Row(chunk, v);
      IndexMeaning(rows, chunk.id);
      PutKeeps(rows, row, dim);
      if chunk.id in chunkIndex {
        var idx := chunkIndex[chunk.id];
        ReplaceRow(rows, dim, idx, row);
        var start := idx * dim;
        var end := start + dim;
        vectors := vectors[..start] + v + vectors[end..];
        SameIndex(chunks, chunks[idx := chunk]);
        chunks := chunks[idx := chunk];
      } else {
        var idx := |chunks|;
        AppendRow(rows, row);
        IndexAppend(chunks, chunk);
        vectors := vectors + v;
        chunks := chunks + [chunk];
        chunkIndex := chunkIndex[chunk.id := idx];
      }
      rows := PutRows(rows, row);
      dirty := true;
      r := Ok(());
    }

    /** The best rows for a query, whatever the normalisation and the product compute. */
    method Query(query: Vec, topK: nat, normalize: Vec -> Vec, dot: (Vec, Vec) -> real)
      returns (r: Result<seq<Hit>, StoreError>)
      requires Valid() && KeepsLength(normalize)
      ensures |query| != dim ==> r == Err(DimMismatch)
      ensures |query| == dim ==> r == Ok(BestHits(rows, Scores(rows, normalize(query), dot), topK))
    {
      hide Flatten, IndexOf, Sorted, BestHits;
      if |query| != dim { return Err(DimMismatch); }
      var q := normalize(query);
      ghost var scores := Scores(rows, q, dot);
      if topK == 0 || chunks == [] {
        NoHits(rows, scores, topK);
        return Ok([]);
      }
      var scored := ScoreRows(q, dot);
      var sorted := Sorted(scored, Higher);
      var top := if topK < |sorted| then sorted[..topK] else sorted;
      BestMeaning(scores, topK);
      var hits: seq<Hit> := [];
      for i := 0 to |top|
        invariant |hits| == i && forall k | 0 <= k < i :: hits[k] == Hit(rows[top[k].index].chunk.id, top[k].score)
      {
        hits := hits + [Hit(chunks[top[i].index].id, top[i].score)];
      }
      HitsAre(rows, scores, topK, hits);
      r := Ok(hits);
    }

    method ScoreRows(q: Vec, dot: (Vec, Vec) -> real) returns (scored: seq<Scored>)
      requires Valid()
      ensures scored == Pairs(Scores(rows, q, dot))
    {
      hide Flatten, IndexOf;
      scored := [];
      for i := 0 to |chunks|
        invariant |scored| == i && forall k | 0 <= k < i :: scored[k] == Scored(k, dot(q, rows[k].vector))
      {
        RowSlice(rows, dim, i);
        var start := i * dim;
        var end := start + dim;
        scored := scored + [Scored(i, dot(q, vectors[start..end]))];
      }
    }

    /** Removes the rows whose path starts with the prefix, backslashes read as slashes; an empty prefix removes
        nothing. */
    method RemoveByPathPrefix(prefix: string) returns (removed: nat)
      requires Valid()
      modifies this
      ensures Valid()
      ensures rows == RemoveRows(old(rows), prefix) && removed == |old(rows)| - |rows|
      ensures prefix == "" ==> rows == old(rows)
      ensures dirty == (old(dirty) || removed > 0)
    {
      hide Flatten, IndexOf, Matches, Distinct, Unmatched;
      if prefix == "" { return 0; }
      var newVectors, newChunks, newIndex;
      newVectors, newChunks, newIndex, removed := KeepUnmatched(prefix);
      UnmatchedLength(rows, prefix);
      RemoveKeeps(rows, prefix, dim);
      if removed > 0 {
        vectors, chunks, chunkIndex, dirty := newVectors, newChunks, newIndex, true;
        rows := Unmatched(rows, prefix);
      }
    }

    /** One pass over the rows that rebuilds vectors, chunks and index without the matching rows. */
    method KeepUnmatched(prefix: string)
      returns (newVectors: Vec, newChunks: seq<Chunk>, newIndex: map<string, nat>, removed: nat)
      requires Valid()
      ensures newVectors == Flatten(VectorsOf(Unmatched(rows, prefix)))
      ensures newChunks == ChunksOf(Unmatched(rows, prefix)) && newIndex == IndexOf(newChunks)
      ensures removed + |newChunks| == |rows|
    {
      hide Flatten, IndexOf, Matches, Distinct, Unmatched;
      var needle := Slashes(prefix);
      newVectors, newChunks, newIndex, removed := [], [], map[], 0;
      NothingKept(rows, prefix);
      for i := 0 to |chunks|
        invariant newChunks == ChunksOf(Unmatched(rows[..i], prefix))
        invariant newVectors == Flatten(VectorsOf(Unmatched(rows[..i], prefix)))
        invariant newIndex == IndexOf(newChunks)
        invariant removed + |newChunks| == i
      {
        var normalized := Slashes(chunks[i].path);
        UnmatchedNext(rows, i, prefix);
        if needle <= normalized {
          removed := removed + 1;
        } else {
          var newIdx := |newChunks|;
          RowSlice(rows, dim, i);
          var start, end := i * dim, (i + 1) * dim;
          assert end == start + dim && vectors[start..end] == rows[i].vector;
          AppendRow(Unmatched(rows[..i], prefix), rows[i]);
          IndexAppend(newChunks, chunks[i]);
          newVectors := newVectors + vectors[start..end];
          newIndex := newIndex[chunks[i].id := newIdx];
          newChunks := newChunks + [chunks[i]];
        }
      }
      assert rows[..|chunks|] == rows;
    }

    method DiscardPendingChanges()
      modifies `dirty
      ensures State() == old(State()).(dirty := false)
    {
      dirty := false;
    }

    /** Write vectors, chunks and manifest, in this order, if anything has changed. */
    method Flush()
      requires Valid()
      modifies `dirty, dir
      ensures Valid() && rows == old(rows) && State() == old(State()).(dirty := false)
      ensures dir.Files() ==
        if old(dirty) then Flushed(old(dir.Files()), rows, dim, tag, codec, 3) else old(dir.Files())
    {
      hide Flatten, Encode, FileText, IndexOf, Distinct;
      if !dirty { return; }
      ghost var files := dir.Files();
      var bytes := WriteVectors(vectors);
      dir.vectors := Some(bytes);
      assert dir.Files() == Flushed(files, rows, dim, tag, codec, 1);
      var text := WriteChunks(chunks, codec);
      dir.chunks := Some(text);
      assert dir.Files() == Flushed(files, rows, dim, tag, codec, 2);
      dir.manifest := Some(Manifest(MANIFEST_VERSION, dim, tag, |chunks|));
      dirty := false;
    }

    method GetChunk(chunkId: string) returns (r: Option<Chunk>)
      requires Valid()
      ensures r == match Lookup(rows, chunkId) case None => None case Some(row) => Some(row.chunk)
    {
      hide Flatten, IndexOf, FindId;
      IndexMeaning(rows, chunkId);
      if chunkId in chunkIndex {
        r := Some(chunks[chunkIndex[chunkId]]);
      } else {
        r := None;
      }
    }
  }

  lemma PutKeeps(rows: seq<Row>, r: Row, dim: nat)
    requires RowsOk(rows, dim) && |r.vector| == dim
    ensures RowsOk(PutRows(rows, r), dim)
  {
    PutIsUpdate(rows, r, "");
    var rows' := PutRows(rows, r);
    forall i | 0 <= i < |rows'| ensures |rows'[i].vector| == dim {
      assert i < |rows| ==> VectorsOf(rows)[i] == rows[i].vector;
    }
  }

  lemma RemoveKeeps(rows: seq<Row>, prefix: string, dim: nat)
    requires RowsOk(rows, dim)
    ensures RowsOk(Unmatched(rows, prefix), dim)
  {
    hide Matches;
    UnmatchedDistinct(rows, prefix);
    var u := Unmatched(rows, prefix);
    forall i | 0 <= i < |u| ensures |u[i].vector| == dim {
      UnmatchedIs(rows, prefix, u[i]);
      var j :| 0 <= j < |rows| && rows[j] == u[i];
      assert VectorsOf(rows)[j] == u[i].vector;
    }
  }

  lemma NothingKept(rows: seq<Row>, prefix: string)
    ensures Unmatched(rows[..0], prefix) == [] && ChunksOf([]) == [] && VectorsOf([]) == []
    ensures Flatten([]) == [] && IndexOf([]) == map[]
  {
  }

  lemma UnmatchedNext(rows: seq<Row>, i: nat, prefix: string)
    requires i < |rows|
    ensures Unmatched(rows[..i + 1], prefix) ==
      if Matches(rows[i], prefix) then Unmatched(rows[..i], prefix) else Unmatched(rows[..i], prefix) + [rows[i]]
    ensures Matches(rows[i], prefix) <==> Slashes(prefix) <= Slashes(ChunksOf(rows)[i].path)
  {
    assert rows[..i + 1][..i] == rows[..i];
  }

  lemma NoHits(rows: seq<Row>, scores: seq<real>, k: nat)
    requires |scores| == |rows| && (k == 0 || rows == [])
    ensures BestHits(rows, scores, k) == []
  {
    BestMeaning(scores, k);
  }

  lemma HitsAre(rows: seq<Row>, scores: seq<real>, k: nat, hits: seq<Hit>)
    requires |scores| == |rows| && |hits| == |Best(scores, k)|
    requires forall i | 0 <= i < |Best(scores, k)| :: Best(scores, k)[i].index < |rows|
    requires forall i | 0 <= i < |hits| ::
      hits[i] == Hit(rows[Best(scores, k)[i].index].chunk.id, Best(scores, k)[i].score)
    ensures hits == BestHits(rows, scores, k)
  {
  }

  // ---------- files to memory ----------

  method WriteVectors(vectors: Vec) returns (bytes: seq<Byte>)
    ensures bytes == Encode(vectors)
  {
    bytes := [];
    for i := 0 to |vectors|
      invariant bytes == Encode(vectors[..i])
    {
      assert vectors[..i + 1][..i] == vectors[..i];
      bytes := bytes + Bytes(vectors[i]);
    }
    assert vectors[..|vectors|] == vectors;
  }

  method ReadVectorsBin(file: Option<seq<Byte>>, count: nat, dim: nat) returns (r: Result<Vec, StoreError>)
    ensures r == ReadVectors(file, count, dim)
  {
    hide FromBytes;
    if count == 0 { return Ok([]); }
    if file.None? { return Err(ReadError); }
    var bytes := file.value;
    var expected := count * dim * 4;
    if |bytes| != expected { return Err(VectorsSize); }
    var out: Vec := [];
    for i := 0 to |bytes| / 4
      invariant |out| == i && forall k | 0 <= k < i :: out[k] == Decode(bytes)[k]
    {
      out := out + [FromBytes(bytes[4 * i .. 4 * i + 4])];
    }
    assert out == Decode(bytes);
    r := Ok(out);
  }

  /** The id index of a chunk list; nothing if an id comes twice. */
  method BuildIndex(chunks: seq<Chunk>) returns (index: Option<map<string, nat>>)
    ensures HasDuplicate(chunks) ==> index == None
    ensures !HasDuplicate(chunks) ==> index == Some(IndexOf(chunks))
  {
    var built: map<string, nat> := map[];
    for i := 0 to |chunks|
      invariant built == IndexOf(chunks[..i])
      invariant forall id :: id in built <==> exists k :: 0 <= k < i && chunks[k].id == id
      invariant forall j, k | 0 <= j < k < i :: chunks[j].id != chunks[k].id
    {
      assert chunks[..i + 1][..i] == chunks[..i];
      if chunks[i].id in built {
        return None;
      }
      built := built[chunks[i].id := i];
    }
    assert chunks[..|chunks|] == chunks;
    index := Some(built);
  }

  /** Open a directory, with the same checks in the same order. An opened store is valid. */
  method OpenStore(dir: Directory, expectedDim: nat, expectedTag: string, codec: Codec)
    returns (r: Result<FileStore, StoreError>)
    ensures match Open(dir.Files(), expectedDim, expectedTag, codec)
      case Err(e) => r == Err(e)
      case Ok(s) => r.Ok? && r.value.State() == s && r.value.dir == dir && r.value.codec == codec
                    && (expectedDim > 0 ==> r.value.Valid())
  {
    hide ReadVectors, ReadChunkFile, HasDuplicate, IndexOf, Flatten, Distinct;
    if dir.manifest.None? { return Err(NoManifest); }
    var manifest := dir.manifest.value;
    if manifest.version != MANIFEST_VERSION { return Err(BadVersion); }
    if manifest.dim != expectedDim { return Err(DimMismatch); }
    if manifest.tag != expectedTag { return Err(TagMismatch); }
    var vectors := ReadVectorsBin(dir.vectors, manifest.count, manifest.dim);
    if vectors.Err? { return Err(vectors.error); }
    var chunks := ReadChunksJsonl(dir.chunks, codec);
    if chunks.Err? { return Err(chunks.error); }
    if |chunks.value| != manifest.count { return Err(CountMismatch); }
    var index := BuildIndex(chunks.value);
    if index.None? { return Err(DuplicateId); }
    VectorCount(dir.vectors, manifest.count, manifest.dim);
    RowsOfHolds(vectors.value, chunks.value, manifest.dim);
    ghost var rows := RowsOf(vectors.value, chunks.value, manifest.dim);
    NoDuplicate(rows);
    var store := new FileStore(dir, manifest.dim, manifest.tag, codec, vectors.value, chunks.value, index.value,
                               false, rows);
    r := Ok(store);
  }

  method ReadChunksJsonl(file: Option<string>, codec: Codec) returns (r: Result<seq<Chunk>, StoreError>)
    ensures r == ReadChunkFile(file, codec)
  {
    if file.None? { return Ok([]); }
    var chunks := ReadChunks(file.value, codec);
    r := if chunks.None? then Err(ParseError) else Ok(chunks.value);
  }

  lemma VectorCount(file: Option<seq<Byte>>, count: nat, dim: nat)
    ensures var r := ReadVectors(file, count, dim); r.Ok? ==> |r.value| == count * dim
  {
  }

  /** A new store: an empty list of rows, of which only the manifest is written. */
  method CreateStore(dir: Directory, dim: nat, tag: string, codec: Codec) returns (r: Result<FileStore, StoreError>)
    modifies dir
    ensures dim == 0 ==> r == Err(ZeroDim) && dir.Files() == old(dir.Files())
    ensures dim > 0 ==>
      r.Ok? && r.value.Valid() && r.value.rows == [] && r.value.dirty && r.value.dir == dir && r.value.dim == dim
      && dir.Files() == old(dir.Files()).(manifest := Some(Manifest(MANIFEST_VERSION, dim, tag, 0)))
  {
    if dim == 0 { return Err(ZeroDim); }
    var store := new FileStore(dir, dim, tag, codec, [], [], map[], true, []);
    dir.manifest := Some(Manifest(MANIFEST_VERSION, dim, tag, 0));
    r := Ok(store);
  }
}
