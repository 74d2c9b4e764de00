/** The vector store as a list of rows with distinct ids, in the order of insertion, and the three files that
    a flush writes one after the other. */
module StoreModel {
  import opened Arith
  import opened ChunkFile
  import opened FloatBytes
  import opened StableSort
  import opened Wrappers

  type Vec = seq<Float>

  datatype Row = Row(chunk: Chunk, vector: Vec)

  datatype StoreError =
    ZeroDim | DimMismatch | TagMismatch | NoManifest | BadVersion | ReadError | VectorsSize | ParseError
    | CountMismatch | DuplicateId

  // ---------- rows ----------

  function VectorsOf(rows: seq<Row>): (r: seq<Vec>)
    ensures |r| == |rows|
  {
    seq(|rows|, i requires 0 <= i < |rows| => rows[i].vector)
  }

  function ChunksOf(rows: seq<Row>): (r: seq<Chunk>)
    ensures |r| == |rows|
  {
    seq(|rows|, i requires 0 <= i < |rows| => rows[i].chunk)
  }

  ghost predicate Distinct(rows: seq<Row>) {
    forall i, j | 0 <= i < j < |rows| :: rows[i].chunk.id != rows[j].chunk.id
  }

  /** The place of an id, or the length. */
  function FindId(rows: seq<Row>, id: string): (p: nat)
    ensures p <= |rows| && (p < |rows| ==> rows[p].chunk.id == id) && forall i | 0 <= i < p :: rows[i].chunk.id != id
  {
    if rows == [] || rows[0].chunk.id == id then 0 else 1 + FindId(rows[1..], id)
  }

  function Lookup(rows: seq<Row>, id: string): Option<Row> {
    var p := FindId(rows, id);
    if p < |rows| then Some(rows[p]) else None
  }

  /** A row with a known id is replaced in place, a new one goes to the end. */
  function PutRows(rows: seq<Row>, r: Row): seq<Row> {
    var p := FindId(rows, r.chunk.id);
    if p < |rows| then rows[p := r] else rows + [r]
  }

  lemma FindIs(rows: seq<Row>, i: nat)
    requires Distinct(rows) && i < |rows|
    ensures FindId(rows, rows[i].chunk.id) == i
  {
    hide FindId;
    var p := FindId(rows, rows[i].chunk.id);
    assert p <= i;
  }

  /** A put is a map update that keeps the order of insertion. */
  lemma PutIsUpdate(rows: seq<Row>, r: Row, id: string)
    requires Distinct(rows)
    ensures Distinct(PutRows(rows, r))
    ensures Lookup(PutRows(rows, r), id) == if id == r.chunk.id then Some(r) else Lookup(rows, id)
    ensures |PutRows(rows, r)| == |rows| + if Lookup(rows, r.chunk.id).None? then 1 else 0
    ensures forall i | 0 <= i < |rows| :: PutRows(rows, r)[i].chunk.id == rows[i].chunk.id
  {
    hide FindId;
    var p, rows' := FindId(rows, r.chunk.id), PutRows(rows, r);
    FindIs(rows', if p < |rows| then p else |rows|);
    var q := FindId(rows, id);
    if q < |rows| {
      FindIs(rows', q);
    } else if id != r.chunk.id {
      assert forall i | 0 <= i < |rows'| :: rows'[i].chunk.id != id;
    }
  }

  function PutAll(rows: seq<Row>, rs: seq<Row>): seq<Row> {
    if rs == [] then rows else PutRows(PutAll(rows, rs[..|rs| - 1]), rs[|rs| - 1])
  }

  lemma {:induction false} PutAllDistinct(rows: seq<Row>, rs: seq<Row>)
    requires Distinct(rows)
    ensures Distinct(PutAll(rows, rs))
  {
    if rs != [] {
      PutAllDistinct(rows, rs[..|rs| - 1]);
      PutIsUpdate(PutAll(rows, rs[..|rs| - 1]), rs[|rs| - 1], "");
    }
  }

  /** Rows with different ids are all there after putting them. */
  lemma {:induction false} PutAllPresent(rows: seq<Row>, rs: seq<Row>, i: nat)
    requires Distinct(rows) && Distinct(rs) && i < |rs|
    ensures Lookup(PutAll(rows, rs), rs[i].chunk.id) == Some(rs[i])
  {
    var n := |rs| - 1;
    PutAllDistinct(rows, rs[..n]);
    PutIsUpdate(PutAll(rows, rs[..n]), rs[n], rs[i].chunk.id);
    if i < n { PutAllPresent(rows, rs[..n], i); }
  }

  /** Rows that are all there already change nothing when they are put again. */
  lemma {:induction false} PutPresentAgain(rows: seq<Row>, rs: seq<Row>)
    requires forall i | 0 <= i < |rs| :: Lookup(rows, rs[i].chunk.id) == Some(rs[i])
    ensures PutAll(rows, rs) == rows
  {
    if rs != [] { PutPresentAgain(rows, rs[..|rs| - 1]); }
  }

  /** Putting the same rows a second time leaves the store as the first time did. */
  lemma PutAllTwice(rows: seq<Row>, rs: seq<Row>)
    requires Distinct(rows) && Distinct(rs)
    ensures PutAll(PutAll(rows, rs), rs) == PutAll(rows, rs)
  {
    forall i | 0 <= i < |rs| ensures Lookup(PutAll(rows, rs), rs[i].chunk.id) == Some(rs[i]) {
      PutAllPresent(rows, rs, i);
    }
    PutPresentAgain(PutAll(rows, rs), rs);
  }

  // ---------- removal ----------

  function Slashes(path: string): (r: string)
    ensures |r| == |path|
  {
    seq(|path|, i requires 0 <= i < |path| => if path[i] == '\\' then '/' else path[i])
  }

  predicate Matches(r: Row, prefix: string) { Slashes(prefix) <= Slashes(r.chunk.path) }

  /** The same character, or two slashes of either kind. */
  predicate SameInPaths(a: char, b: char) { a == b || (a in {'/', '\\'} && b in {'/', '\\'}) }

  /** A row matches if its path begins with the prefix, slash or backslash alike. */
  lemma MatchesMeaning(r: Row, prefix: string)
    ensures Matches(r, prefix) <==>
      |prefix| <= |r.chunk.path| && forall i | 0 <= i < |prefix| :: SameInPaths(prefix[i], r.chunk.path[i])
  {
    var a, b := Slashes(prefix), Slashes(r.chunk.path);
    if |a| <= |b| {
      assert a <= b <==> forall i | 0 <= i < |a| :: a[i] == b[i];
      forall i | 0 <= i < |a| ensures a[i] == b[i] <==> SameInPaths(prefix[i], r.chunk.path[i]) {
      }
    }
  }

  function Unmatched(rows: seq<Row>, prefix: string): seq<Row> {
    if rows == [] then []
    else
      var n := |rows| - 1;
      Unmatched(rows[..n], prefix) + if Matches(rows[n], prefix) then [] else [rows[n]]
  }

  /** An empty prefix removes nothing. */
  function RemoveRows(rows: seq<Row>, prefix: string): seq<Row> {
    if prefix == "" then rows else Unmatched(rows, prefix)
  }

  /** What stays are the rows that do not match. */
  lemma {:induction false} UnmatchedIs(rows: seq<Row>, prefix: string, r: Row)
    ensures r in Unmatched(rows, prefix) <==> r in rows && !Matches(r, prefix)
  {
    hide Matches;
    if rows != [] {
      var n := |rows| - 1;
      UnmatchedIs(rows[..n], prefix, r);
      assert rows == rows[..n] + [rows[n]];
    }
  }

  /** A row is removed exactly if the prefix is not empty and the row matches it. */
  lemma RemovedIs(rows: seq<Row>, prefix: string, r: Row)
    ensures r in RemoveRows(rows, prefix) <==> r in rows && !(prefix != "" && Matches(r, prefix))
  {
    hide Matches, Unmatched;
    UnmatchedIs(rows, prefix, r);
  }

  /** Two rows that stay are in the order they were in. */
  lemma {:induction false} UnmatchedOrder(rows: seq<Row>, prefix: string, i: nat, j: nat) returns (a: nat, b: nat)
    requires i < j < |Unmatched(rows, prefix)|
    ensures a < b < |rows| && rows[a] == Unmatched(rows, prefix)[i] && rows[b] == Unmatched(rows, prefix)[j]
  {
    var n := |rows| - 1;
    var rest := Unmatched(rows[..n], prefix);
    if j < |rest| {
      a, b := UnmatchedOrder(rows[..n], prefix, i, j);
    } else {
      b := n;
      UnmatchedIs(rows[..n], prefix, rest[i]);
      a :| 0 <= a < n && rows[a] == rest[i];
    }
  }

  lemma UnmatchedDistinct(rows: seq<Row>, prefix: string)
    requires Distinct(rows)
    ensures Distinct(Unmatched(rows, prefix))
  {
    hide Unmatched;
    var u := Unmatched(rows, prefix);
    forall i, j | 0 <= i < j < |u| ensures u[i].chunk.id != u[j].chunk.id {
      var a, b := UnmatchedOrder(rows, prefix, i, j);
    }
  }

  /** If as many rows stay as there were, they are the same. */
  lemma {:induction false} UnmatchedLength(rows: seq<Row>, prefix: string)
    ensures |Unmatched(rows, prefix)| <= |rows|
    ensures |Unmatched(rows, prefix)| == |rows| ==> Unmatched(rows, prefix) == rows
  {
    hide Matches;
    if rows != [] {
      var n := |rows| - 1;
      UnmatchedLength(rows[..n], prefix);
      assert rows == rows[..n] + [rows[n]];
    }
  }

  lemma {:induction false} NothingMatches(rows: seq<Row>, prefix: string)
    requires forall i | 0 <= i < |rows| :: !Matches(rows[i], prefix)
    ensures Unmatched(rows, prefix) == rows
  {
    hide Matches;
    if rows != [] {
      NothingMatches(rows[..|rows| - 1], prefix);
      assert rows == rows[..|rows| - 1] + [rows[|rows| - 1]];
    }
  }

  /** Removing a prefix a second time removes nothing more. */
  lemma RemoveTwice(rows: seq<Row>, prefix: string)
    ensures RemoveRows(RemoveRows(rows, prefix), prefix) == RemoveRows(rows, prefix)
  {
    hide Matches, Unmatched;
    var u := Unmatched(rows, prefix);
    forall i | 0 <= i < |u| ensures !Matches(u[i], prefix) { UnmatchedIs(rows, prefix, u[i]); }
    NothingMatches(u, prefix);
  }

  // ---------- queries ----------

  function Pairs(scores: seq<real>): (r: seq<Scored>)
    ensures |r| == |scores|
  {
    seq(|scores|, i requires 0 <= i < |scores| => Scored(i, scores[i]))
  }

  /** The first `k` rows from high to low score. */
  function Best(scores: seq<real>, k: nat): seq<Scored> {
    var s := Sorted(Pairs(scores), Higher);
    if k < |s| then s[..k] else s
  }

  /** The best rows: as many as asked for or as there are, in falling order of score, equal scores in order of
      insertion; every row left out scores lower, or the same and came later. */
  lemma BestMeaning(scores: seq<real>, k: nat)
    ensures var b := Best(scores, k);
      && |b| == (if k < |scores| then k else |scores|)
      && (forall i | 0 <= i < |b| :: b[i].index < |scores| && b[i].score == scores[b[i].index])
      && (forall i, j | 0 <= i < j < |b| ::
            b[i].score > b[j].score || (b[i].score == b[j].score && b[i].index < b[j].index))
      && (forall i, r: nat | 0 <= i < |b| && r < |scores| && Scored(r, scores[r]) !in b ::
            b[i].score > scores[r] || (b[i].score == scores[r] && b[i].index < r))
  {
    hide Sorted;
    var ps, s, b := Pairs(scores), Sorted(Pairs(scores), Higher), Best(scores, k);
    SortedElements(ps, Higher);
    SortedArranged(ps, Higher, Earlier);
    forall i | 0 <= i < |s| ensures s[i].index < |scores| && s[i].score == scores[s[i].index] {
      InSorted(ps, Higher, s[i]);
      var j :| 0 <= j < |ps| && ps[j] == s[i];
    }
    forall i, r: nat | 0 <= i < |b| && r < |scores| && Scored(r, scores[r]) !in b
      ensures b[i].score > scores[r] || (b[i].score == scores[r] && b[i].index < r)
    {
      assert ps[r] == Scored(r, scores[r]);
      InSorted(ps, Higher, ps[r]);
      var m :| 0 <= m < |s| && s[m] == ps[r];
      assert forall j | 0 <= j < |b| :: b[j] == s[j];
      assert m >= |b|;
    }
  }

  // ---------- files ----------

  const MANIFEST_VERSION: nat := 1

  datatype Manifest = Manifest(version: nat, dim: nat, tag: string, count: nat)

  /** The files of the directory. */
  datatype Disk = Disk(manifest: Option<Manifest>, vectors: Option<seq<Byte>>, chunks: Option<string>)

  datatype Store = Store(dim: nat, tag: string, vectors: seq<Float>, chunks: seq<Chunk>, index: map<string, nat>,
                         dirty: bool)

  function IndexOf(chunks: seq<Chunk>): map<string, nat> {
    if chunks == [] then map[] else IndexOf(chunks[..|chunks| - 1])[chunks[|chunks| - 1].id := |chunks| - 1]
  }

  /** The store in memory that holds exactly these rows and has nothing to write. */
  function StoreOf(rows: seq<Row>, dim: nat, tag: string): Store {
    Store(dim, tag, Flatten(VectorsOf(rows)), ChunksOf(rows), IndexOf(ChunksOf(rows)), false)
  }

  predicate HasDuplicate(chunks: seq<Chunk>) {
    exists i, j | 0 <= i < j < |chunks| :: chunks[i].id == chunks[j].id
  }

  function ReadVectors(file: Option<seq<Byte>>, count: nat, dim: nat): Result<seq<Float>, StoreError> {
    if count == 0 then Ok([])
    else if file.None? then Err(ReadError)
    else if |file.value| != count * dim * 4 then Err(VectorsSize)
    else Ok(Decode(file.value))
  }

  function ReadChunkFile(file: Option<string>, codec: Codec): Result<seq<Chunk>, StoreError> {
    if file.None? then Ok([])
    else
      var r := Parse(Lines(file.value), codec);
      if r.None? then Err(ParseError) else Ok(r.value)
  }

  /** Opening a directory: the manifest is checked first, then the vectors, then the chunks against it. */
  function Open(disk: Disk, dim: nat, tag: string, codec: Codec): Result<Store, StoreError> {
    if disk.manifest.None? then Err(NoManifest)
    else
      var m := disk.manifest.value;
      if m.version != MANIFEST_VERSION then Err(BadVersion)
      else if m.dim != dim then Err(DimMismatch)
      else if m.tag != tag then Err(TagMismatch)
      else
        var vectors := ReadVectors(disk.vectors, m.count, m.dim);
        if vectors.Err? then Err(vectors.error)
        else
          var chunks := ReadChunkFile(disk.chunks, codec);
          if chunks.Err? then Err(chunks.error)
          else if |chunks.value| != m.count then Err(CountMismatch)
          else if HasDuplicate(chunks.value) then Err(DuplicateId)
          else Ok(Store(m.dim, m.tag, vectors.value, chunks.value, IndexOf(chunks.value), false))
  }

  /** What is refused before the data files are read, and why; and what holds of a store that opens. */
  lemma OpenMeaning(disk: Disk, dim: nat, tag: string, codec: Codec)
    ensures var r := Open(disk, dim, tag, codec);
      && (r == Err(NoManifest) <==> disk.manifest.None?)
      && (r == Err(BadVersion) <==> disk.manifest.Some? && disk.manifest.value.version != 1)
      && (r == Err(DimMismatch) <==>
            disk.manifest.Some? && disk.manifest.value.version == 1 && disk.manifest.value.dim != dim)
      && (r == Err(TagMismatch) <==>
            && disk.manifest.Some? && disk.manifest.value.version == 1
            && disk.manifest.value.dim == dim && disk.manifest.value.tag != tag)
      && (r.Ok? ==>
            && disk.manifest == Some(Manifest(1, dim, tag, |r.value.chunks|))
            && r.value.dim == dim && r.value.tag == tag && !r.value.dirty
            && |r.value.vectors| == |r.value.chunks| * dim
            && (forall i, j | 0 <= i < j < |r.value.chunks| :: r.value.chunks[i].id != r.value.chunks[j].id))
  {
    hide ReadChunkFile, IndexOf;
    if disk.manifest.Some? { VectorsCount(disk.vectors, disk.manifest.value.count, disk.manifest.value.dim); }
    ChunkFileErrors(disk.chunks, codec);
  }

  lemma VectorsCount(file: Option<seq<Byte>>, count: nat, dim: nat)
    ensures var r := ReadVectors(file, count, dim);
      if r.Ok? then |r.value| == count * dim else r.error == ReadError || r.error == VectorsSize
  {
  }

  lemma ChunkFileErrors(file: Option<string>, codec: Codec)
    ensures ReadChunkFile(file, codec).Err? ==> ReadChunkFile(file, codec).error == ParseError
  {
  }

  /** The files after the first `written` of the three writes of a flush: vectors, chunks, manifest. */
  function Flushed(disk: Disk, rows: seq<Row>, dim: nat, tag: string, codec: Codec, written: nat): Disk {
    Disk(if written >= 3 then Some(Manifest(MANIFEST_VERSION, dim, tag, |rows|)) else disk.manifest,
         if written >= 1 then Some(Encode(Flatten(VectorsOf(rows)))) else disk.vectors,
         if written >= 2 then Some(FileText(ChunksOf(rows), codec)) else disk.chunks)
  }

  /** The files hold the rows. Without rows only the manifest needs to be there. */
  ghost predicate Represents(disk: Disk, rows: seq<Row>, dim: nat, tag: string, codec: Codec) {
    && disk.manifest == Some(Manifest(MANIFEST_VERSION, dim, tag, |rows|))
    && (rows == [] || disk.vectors == Some(Encode(Flatten(VectorsOf(rows)))))
    && (disk.chunks == Some(FileText(ChunksOf(rows), codec)) || (rows == [] && disk.chunks.None?))
  }

  ghost predicate RowsOk(rows: seq<Row>, dim: nat) { dim > 0 && Distinct(rows) && Wide(VectorsOf(rows), dim) }

  lemma FlushRepresents(disk: Disk, rows: seq<Row>, dim: nat, tag: string, codec: Codec)
    ensures Represents(Flushed(disk, rows, dim, tag, codec, 3), rows, dim, tag, codec)
  {
  }

  lemma VectorsRead(rows: seq<Row>, dim: nat, count: nat)
    requires RowsOk(rows, dim)
    ensures var r := ReadVectors(Some(Encode(Flatten(VectorsOf(rows)))), count, dim);
      if count == 0 then r == Ok([])
      else if count == |rows| then r == Ok(Flatten(VectorsOf(rows)))
      else r == Err(VectorsSize)
  {
    hide Encode, Flatten, Decode;
    var v := Flatten(VectorsOf(rows));
    FlattenLength(VectorsOf(rows), dim);
    DecodeSlice(v, 0, |v|);
    assert Encode(v)[4 * 0 .. 4 * |v|] == Encode(v) && v[0..|v|] == v;
    SameProduct(count, |rows|, dim);
  }

  lemma SameProduct(a: nat, b: nat, c: nat)
    requires c > 0
    ensures a * c * 4 == 4 * (b * c) <==> a == b
  {
    if a < b { MulStep(a, b, c); } else if b < a { MulStep(b, a, c); }
  }

  lemma ChunksRead(rows: seq<Row>, codec: Codec)
    requires CodecOk(codec)
    ensures ReadChunkFile(Some(FileText(ChunksOf(rows), codec)), codec) == Ok(ChunksOf(rows))
  {
    FileRoundTrip(ChunksOf(rows), codec);
  }

  lemma NoDuplicate(rows: seq<Row>)
    ensures HasDuplicate(ChunksOf(rows)) <==> !Distinct(rows)
  {
    if !Distinct(rows) {
      var i, j :| 0 <= i < j < |rows| && rows[i].chunk.id == rows[j].chunk.id;
      assert ChunksOf(rows)[i].id == ChunksOf(rows)[j].id;
    }
  }

  /** Files that hold rows open as the store with these rows. */
  lemma OpenRepresented(disk: Disk, rows: seq<Row>, dim: nat, tag: string, codec: Codec)
    requires CodecOk(codec) && RowsOk(rows, dim) && Represents(disk, rows, dim, tag, codec)
    ensures Open(disk, dim, tag, codec) == Ok(StoreOf(rows, dim, tag))
  {
    hide Encode, Flatten, ReadVectors, ReadChunkFile, HasDuplicate, Distinct, FileText;
    VectorsRead(rows, dim, |rows|);
    ChunksRead(rows, codec);
    NoDuplicate(rows);
    NoVectors(disk.vectors, dim);
    NoChunks(codec);
    if rows == [] { EmptyStore(rows); }
  }

  lemma NoVectors(file: Option<seq<Byte>>, dim: nat)
    ensures ReadVectors(file, 0, dim) == Ok([])
  {
  }

  lemma NoChunks(codec: Codec)
    ensures ReadChunkFile(None, codec) == Ok([])
  {
  }

  lemma EmptyStore(rows: seq<Row>)
    requires rows == []
    ensures Flatten(VectorsOf(rows)) == [] && ChunksOf(rows) == []
  {
  }

  /** A completed flush followed by an open restores the rows. */
  lemma FlushThenOpen(disk: Disk, rows: seq<Row>, dim: nat, tag: string, codec: Codec)
    requires CodecOk(codec) && RowsOk(rows, dim)
    ensures Open(Flushed(disk, rows, dim, tag, codec, 3), dim, tag, codec) == Ok(StoreOf(rows, dim, tag))
  {
    FlushRepresents(disk, rows, dim, tag, codec);
    OpenRepresented(Flushed(disk, rows, dim, tag, codec, 3), rows, dim, tag, codec);
  }

  // ---------- crashes ----------

  /** What a crash may leave: an error, the old rows or the new ones. */
  ghost predicate Clean(r: Result<Store, StoreError>, before: seq<Row>, rows: seq<Row>, dim: nat, tag: string) {
    r.Err? || r == Ok(StoreOf(before, dim, tag)) || r == Ok(StoreOf(rows, dim, tag))
  }

  /** After the first write: new vectors with the old chunks and the old count. */
  lemma CrashAfterVectors(disk: Disk, before: seq<Row>, rows: seq<Row>, dim: nat, tag: string, codec: Codec)
    requires CodecOk(codec) && RowsOk(before, dim) && RowsOk(rows, dim) && Represents(disk, before, dim, tag, codec)
    ensures Open(Flushed(disk, rows, dim, tag, codec, 1), dim, tag, codec) ==
      if before == [] then Ok(StoreOf(before, dim, tag))
      else if |rows| != |before| then Err(VectorsSize)
      else Ok(StoreOf(before, dim, tag).(vectors := Flatten(VectorsOf(rows))))
  {
    hide Encode, Flatten, ReadVectors, ReadChunkFile, HasDuplicate, Distinct, FileText;
    VectorsRead(rows, dim, |before|);
    ChunksRead(before, codec);
    NoDuplicate(before);
    NoVectors(Some(Encode(Flatten(VectorsOf(rows)))), dim);
    NoChunks(codec);
    if before == [] { EmptyStore(before); }
  }

  /** After the second write: new vectors and chunks with the old count. */
  lemma CrashAfterChunks(disk: Disk, before: seq<Row>, rows: seq<Row>, dim: nat, tag: string, codec: Codec)
    requires CodecOk(codec) && RowsOk(before, dim) && RowsOk(rows, dim) && Represents(disk, before, dim, tag, codec)
    ensures var r := Open(Flushed(disk, rows, dim, tag, codec, 2), dim, tag, codec);
      if |rows| == |before| then r == Ok(StoreOf(rows, dim, tag)) else r.Err?
  {
    hide Encode, Flatten, ReadVectors, ReadChunkFile, HasDuplicate, Distinct, FileText;
    VectorsRead(rows, dim, |before|);
    ChunksRead(rows, codec);
    NoDuplicate(rows);
    if rows == [] { EmptyStore(rows); }
  }

  lemma {:induction false} FlattenSame(a: seq<Vec>, b: seq<Vec>, n: nat)
    requires Wide(a, n) && Wide(b, n) && |a| == |b|
    ensures Flatten(a) == Flatten(b) <==> a == b
  {
    if Flatten(a) == Flatten(b) {
      forall i | 0 <= i < |a| ensures a[i] == b[i] {
        FlattenAt(a, n, i);
        FlattenAt(b, n, i);
      }
    }
  }

  /** A flush that is cut off between two writes leaves an error, the old store or the new one, exactly if it is
      not cut off after the first write, or the number of rows changes, or the vectors or the chunks do not. */
  lemma CrashExact(disk: Disk, before: seq<Row>, rows: seq<Row>, dim: nat, tag: string, codec: Codec, written: nat)
    requires CodecOk(codec) && RowsOk(before, dim) && RowsOk(rows, dim) && Represents(disk, before, dim, tag, codec)
    requires written <= 3
    ensures Clean(Open(Flushed(disk, rows, dim, tag, codec, written), dim, tag, codec), before, rows, dim, tag) <==>
      written != 1 || |rows| != |before| || VectorsOf(rows) == VectorsOf(before) || ChunksOf(rows) == ChunksOf(before)
  {
    hide Flatten, Open, Wide, Distinct, FileText, Encode, VectorsOf, ChunksOf, IndexOf;
    if written == 0 {
      assert Flushed(disk, rows, dim, tag, codec, 0) == disk;
      OpenRepresented(disk, before, dim, tag, codec);
    } else if written == 1 {
      CrashAfterVectors(disk, before, rows, dim, tag, codec);
      if |rows| == |before| {
        FlattenSame(VectorsOf(rows), VectorsOf(before), dim);
        if before == [] { EmptyBoth(before, rows); }
      }
    } else if written == 2 {
      CrashAfterChunks(disk, before, rows, dim, tag, codec);
    } else {
      FlushThenOpen(disk, rows, dim, tag, codec);
    }
  }

  lemma EmptyBoth(a: seq<Row>, b: seq<Row>)
    requires a == [] && b == []
    ensures VectorsOf(a) == VectorsOf(b)
  {
  }

  /** An upsert that keeps the count is such a case: the file after a crash pairs the new vector with the old chunk. */
  lemma CrashMixes(codec: Codec, tag: string)
    requires CodecOk(codec)
    ensures var old_ := [Row(Chunk("a", "x", "p", 0, 1, None), [1])];
      var new_ := [Row(Chunk("a", "y", "p", 0, 1, None), [2])];
      var disk := Flushed(Disk(None, None, None), old_, 1, tag, codec, 3);
      PutRows(old_, new_[0]) == new_
      && !Clean(Open(Flushed(disk, new_, 1, tag, codec, 1), 1, tag, codec), old_, new_, 1, tag)
  {
    hide Open, Flatten, Encode, FileText;
    var old_, new_ := [Row(Chunk("a", "x", "p", 0, 1, None), [1])], [Row(Chunk("a", "y", "p", 0, 1, None), [2])];
    var disk := Flushed(Disk(None, None, None), old_, 1, tag, codec, 3);
    FlushRepresents(Disk(None, None, None), old_, 1, tag, codec);
    CrashExact(disk, old_, new_, 1, tag, codec, 1);
    assert VectorsOf(old_)[0] != VectorsOf(new_)[0] && ChunksOf(old_)[0].text != ChunksOf(new_)[0].text;
  }
}
