/** The overlapping line-window chunker: the windows cover the file, the overlaps can be dropped again, and the
    ids within a file differ. Strings are sequences of bytes, each written as a character. */
module TextChunker {
  import opened Arith
  import opened ChunkFile
  import opened StoreModel
  import opened Wrappers

  // ---------- lines ----------

  /** Lines with their line break; the last one may have none. */
  function SplitLines(text: string): seq<string>
    decreases |text|
  {
    if text == "" then []
    else
      var k := Newline(text);
      if k == |text| then [text] else [text[..k + 1]] + SplitLines(text[k + 1..])
  }

  function Join(lines: seq<string>): string {
    if lines == [] then "" else lines[0] + Join(lines[1..])
  }

  /** A line ends at its only line break. */
  predicate IsLine(s: string) { s != "" && '\n' !in s[..|s| - 1] }

  /** Lines as they are split: only the last may lack its line break. */
  ghost predicate AreLines(lines: seq<string>) {
    && (forall i | 0 <= i < |lines| :: IsLine(lines[i]))
    && (forall i | 0 <= i < |lines| - 1 :: lines[i][|lines[i]| - 1] == '\n')
  }

  lemma FirstLine(text: string)
    requires Newline(text) < |text|
    ensures IsLine(text[..Newline(text) + 1]) && text[Newline(text)] == '\n'
    ensures text[..Newline(text) + 1] + text[Newline(text) + 1..] == text
  {
    var k := Newline(text);
    hide Newline;
    LineEnd(text, k);
    TwoParts(text, k + 1);
  }

  lemma LineEnd(text: string, k: nat)
    requires k < |text| && '\n' !in text[..k]
    ensures IsLine(text[..k + 1])
  {
    assert text[..k + 1][..k] == text[..k];
  }

  lemma TwoParts<T>(s: seq<T>, k: nat)
    requires k <= |s|
    ensures s[..k] + s[k..] == s
  {
  }

  lemma OneLine(text: string)
    requires text != "" && Newline(text) == |text|
    ensures IsLine(text) && Join([text]) == text
  {
    assert text[..|text|] == text;
    assert [text][1..] == [];
  }

  lemma ConsLines(line: string, rest: seq<string>)
    requires IsLine(line) && line[|line| - 1] == '\n' && AreLines(rest)
    ensures AreLines([line] + rest) && Join([line] + rest) == line + Join(rest)
  {
    assert ([line] + rest)[1..] == rest;
  }

  /** Splitting yields lines that join to the text. */
  lemma {:induction false} SplitAreLines(text: string)
    ensures AreLines(SplitLines(text)) && Join(SplitLines(text)) == text
    ensures text != "" ==> SplitLines(text) != []
    decreases |text|
  {
    if text != "" {
      hide Newline, IsLine, AreLines, Join;
      var k := Newline(text);
      if k == |text| {
        OneLine(text);
        JustOne(text);
      } else {
        SplitAreLines(text[k + 1..]);
        FirstLine(text);
        ConsLines(text[..k + 1], SplitLines(text[k + 1..]));
      }
    }
  }

  lemma JustOne(text: string)
    requires IsLine(text)
    ensures AreLines([text])
  {
  }

  lemma FirstNewline(line: string, rest: string)
    requires IsLine(line)
    ensures line[|line| - 1] == '\n' ==> Newline(line + rest) == |line| - 1
    ensures line[|line| - 1] != '\n' ==> Newline(line) == |line|
  {
    var a := line[..|line| - 1];
    if line[|line| - 1] == '\n' {
      NewlineAt(a, rest);
      assert a + "\n" + rest == line + rest;
    } else {
      assert forall i | 0 <= i < |line| - 1 :: line[i] == a[i];
    }
  }

  /** Joining lines and splitting again gives the same lines. */
  lemma {:induction false} SplitJoin(lines: seq<string>)
    requires AreLines(lines)
    ensures SplitLines(Join(lines)) == lines
  {
    if lines == [] {
    } else {
      var line, rest := lines[0], Join(lines[1..]);
      FirstNewline(line, rest);
      SplitJoin(lines[1..]);
      var k := Newline(line + rest);
      if line[|line| - 1] == '\n' {
        assert (line + rest)[..k + 1] == line && (line + rest)[k + 1..] == rest;
        assert [line] + lines[1..] == lines;
      } else {
        assert |lines| == 1 && lines[1..] == [];
        assert line + rest == line && lines == [line];
      }
    }
  }

  lemma {:induction false} JoinAppend(a: seq<string>, b: seq<string>)
    ensures Join(a + b) == Join(a) + Join(b)
  {
    if a == [] {
      assert a + b == b;
    } else {
      JoinAppend(a[1..], b);
      assert (a + b)[1..] == a[1..] + b;
      ConcatAssoc(a[0], Join(a[1..]), Join(b));
    }
  }

  lemma JoinSlices(lines: seq<string>, a: nat, b: nat, c: nat)
    requires a <= b <= c <= |lines|
    ensures Join(lines[a..c]) == Join(lines[a..b]) + Join(lines[b..c])
  {
    assert lines[a..c] == lines[a..b] + lines[b..c];
    JoinAppend(lines[a..b], lines[b..c]);
  }

  lemma SliceAreLines(lines: seq<string>, a: nat, b: nat)
    requires AreLines(lines) && a <= b <= |lines|
    ensures AreLines(lines[a..b])
  {
  }

  // ---------- windows ----------

  datatype Window = Window(start: nat, end: nat)

  /** The windows from a start line on: each begins `step` lines after the one before. */
  function Windows(n: nat, window: nat, step: nat, start: nat): (r: seq<Window>)
    requires 0 < step <= window && start < n
    ensures r != []
    decreases n - start
  {
    var end := Min(start + window, n);
    [Window(start, end)] + if end == n then [] else Windows(n, window, step, start + step)
  }

  /** Windows are in bounds, the last one reaches the end, and neighbours share exactly the overlap. */
  ghost predicate Covering(w: seq<Window>, n: nat, window: nat, step: nat, start: nat) {
    && w != [] && w[0].start == start && w[|w| - 1].end == n
    && (forall i | 0 <= i < |w| :: w[i].start < w[i].end <= n)
    && (forall i | 0 <= i < |w| - 1 :: Neighbours(w[i], w[i + 1], window, step))
  }

  predicate Neighbours(a: Window, b: Window, window: nat, step: nat) {
    a.end == a.start + window && b.start == a.start + step && a.end < b.end
  }

  lemma {:induction false} WindowsShape(n: nat, window: nat, step: nat, start: nat)
    requires 0 < step <= window && start < n
    ensures Covering(Windows(n, window, step, start), n, window, step, start)
    decreases n - start
  {
    hide Covering;
    if start + window < n {
      WindowsShape(n, window, step, start + step);
      FirstNeighbours(n, window, step, start);
      CoveringCons(Window(start, start + window), Windows(n, window, step, start + step), n, window, step);
    } else {
      CoveringOne(Window(start, n), n, window, step);
      assert Windows(n, window, step, start) == [Window(start, n)];
    }
  }

  lemma FirstNeighbours(n: nat, window: nat, step: nat, start: nat)
    requires 0 < step <= window && start + window < n
    ensures Neighbours(Window(start, start + window), Windows(n, window, step, start + step)[0], window, step)
  {
  }

  lemma CoveringOne(w: Window, n: nat, window: nat, step: nat)
    requires w.start < w.end == n
    ensures Covering([w], n, window, step, w.start)
  {
  }

  lemma CoveringCons(w: Window, rest: seq<Window>, n: nat, window: nat, step: nat)
    requires rest != [] && Covering(rest, n, window, step, rest[0].start) && w.start < w.end
    requires Neighbours(w, rest[0], window, step)
    ensures Covering([w] + rest, n, window, step, w.start)
  {
    var ws := [w] + rest;
    forall i | 0 <= i < |ws| - 1 ensures Neighbours(ws[i], ws[i + 1], window, step) {
      if i > 0 { assert ws[i] == rest[i - 1] && ws[i + 1] == rest[i]; }
    }
  }

  // ---------- ids ----------

  function Digit(d: nat): char
    requires d < 10
  {
    "0123456789"[d]
  }

  function Decimal(n: nat): (s: string)
    ensures s != ""
  {
    if n < 10 then [Digit(n)] else Decimal(n / 10) + [Digit(n % 10)]
  }

  lemma DigitInjective(a: nat, b: nat)
    requires a < 10 && b < 10 && Digit(a) == Digit(b)
    ensures a == b
  {
  }

  lemma {:induction false} DecimalInjective(a: nat, b: nat)
    requires Decimal(a) == Decimal(b)
    ensures a == b
  {
    var s := Decimal(a);
    DecimalLength(a);
    DecimalLength(b);
    DigitInjective(a % 10, b % 10);
    if a >= 10 {
      assert s[..|s| - 1] == Decimal(a / 10) && s[..|s| - 1] == Decimal(b / 10);
      DecimalInjective(a / 10, b / 10);
    }
  }

  lemma DecimalLength(n: nat)
    ensures |Decimal(n)| == 1 <==> n < 10
    ensures Decimal(n)[|Decimal(n)| - 1] == Digit(n % 10)
  {
  }

  /** The shortened hashes of paths and contents, and the language tag: any functions, of the lengths used in ids. */
  datatype Naming = Naming(pathHash: string -> string, contentHash: string -> string, lang: string -> Option<string>)

  ghost predicate NamingOk(nm: Naming) {
    (forall s :: |nm.pathHash(s)| == 16) && (forall s :: |nm.contentHash(s)| == 8)
  }

  function MakeId(nm: Naming, path: string, offset: nat, text: string): string {
    nm.pathHash(path) + ":" + Decimal(offset) + ":" + nm.contentHash(text)
  }

  /** The number that decimal digits stand for. */
  function NumberOf(s: string): int {
    if s == "" then 0 else 10 * NumberOf(s[..|s| - 1]) + (s[|s| - 1] as int - '0' as int)
  }

  /** The offset in an id is written in decimal. */
  lemma {:induction false} DecimalValue(n: nat)
    ensures NumberOf(Decimal(n)) == n
    ensures forall i | 0 <= i < |Decimal(n)| :: '0' <= Decimal(n)[i] <= '9'
  {
    var s := Decimal(n);
    if n >= 10 {
      DecimalValue(n / 10);
      assert s[..|s| - 1] == Decimal(n / 10);
    } else {
      assert s[..|s| - 1] == "" && NumberOf("") == 0;
    }
  }

  /** An id consists of its parts, and two ids are equal exactly if the shortened hashes of path and content and the
      offsets are. */
  lemma IdsEqual(nm: Naming, p: string, a: nat, s: string, q: string, b: nat, t: string)
    requires NamingOk(nm)
    ensures MakeId(nm, p, a, s) == MakeId(nm, q, b, t) <==>
      nm.pathHash(p) == nm.pathHash(q) && a == b && nm.contentHash(s) == nm.contentHash(t)
    ensures var id := MakeId(nm, p, a, s);
      && |id| == |Decimal(a)| + 26 && id[..16] == nm.pathHash(p) && id[16] == ':'
      && id[17..|id| - 9] == Decimal(a) && id[|id| - 9] == ':' && id[|id| - 8..] == nm.contentHash(s)
  {
    IdParts(nm, p, a, s);
    IdParts(nm, q, b, t);
    hide MakeId, Decimal, NamingOk;
    if MakeId(nm, p, a, s) == MakeId(nm, q, b, t) { DecimalInjective(a, b); }
    if nm.pathHash(p) == nm.pathHash(q) && a == b && nm.contentHash(s) == nm.contentHash(t) {
      SameParts(nm, p, a, s, q, t);
    }
  }

  lemma IdParts(nm: Naming, p: string, a: nat, s: string)
    requires NamingOk(nm)
    ensures var id := MakeId(nm, p, a, s);
      && |id| == |Decimal(a)| + 26 && id[..16] == nm.pathHash(p) && id[16] == ':'
      && id[17..|id| - 9] == Decimal(a) && id[|id| - 9] == ':' && id[|id| - 8..] == nm.contentHash(s)
  {
    hide Decimal;
  }

  lemma SameParts(nm: Naming, p: string, a: nat, s: string, q: string, t: string)
    requires nm.pathHash(p) == nm.pathHash(q) && nm.contentHash(s) == nm.contentHash(t)
    ensures MakeId(nm, p, a, s) == MakeId(nm, q, a, t)
  {
  }

  /** Within one path ids tell offsets apart, whatever the hashes are. */
  lemma IdsTellOffsets(nm: Naming, path: string, a: nat, s: string, b: nat, t: string)
    requires NamingOk(nm) && MakeId(nm, path, a, s) == MakeId(nm, path, b, t)
    ensures a == b
  {
    hide MakeId;
    IdsEqual(nm, path, a, s, path, b, t);
  }

  // ---------- chunks ----------

  datatype TextChunker = TextChunker(window: nat, stride: nat)

  /** The configurations that are refused: no window, or an overlap as long as the window. */
  function New(window: nat, stride: nat): (r: Option<TextChunker>)
    ensures r.None? <==> window == 0 || stride >= window
    ensures r.Some? ==> r.value.window == window && r.value.stride == stride && ChunkerOk(r.value)
  {
    if window == 0 || stride >= window then None else Some(TextChunker(window, stride))
  }

  predicate ChunkerOk(c: TextChunker) { c.stride < c.window }

  /** The chunk of a window of lines. */
  function ChunkOf(nm: Naming, path: string, lines: seq<string>, w: Window): Chunk
    requires w.start <= w.end <= |lines|
  {
    var offset, text := |Join(lines[..w.start])|, Join(lines[w.start..w.end]);
    Chunk(MakeId(nm, path, offset, text), text, path, offset, |text|, nm.lang(path))
  }

  function WindowsOf(c: TextChunker, content: string): seq<Window>
    requires ChunkerOk(c)
  {
    SplitAreLines(content);
    if content == "" then [] else Windows(|SplitLines(content)|, c.window, c.window - c.stride, 0)
  }

  lemma WindowsIn(c: TextChunker, content: string, i: nat)
    requires ChunkerOk(c) && i < |WindowsOf(c, content)|
    ensures WindowsOf(c, content)[i].start < WindowsOf(c, content)[i].end <= |SplitLines(content)|
  {
    SplitAreLines(content);
    hide SplitLines, Windows;
    WindowsShape(|SplitLines(content)|, c.window, c.window - c.stride, 0);
  }

  /** The chunks of a file. */
  function ChunksOfText(c: TextChunker, nm: Naming, path: string, content: string): (r: seq<Chunk>)
    requires ChunkerOk(c)
    ensures |r| == |WindowsOf(c, content)|
  {
    seq(|WindowsOf(c, content)|, i requires 0 <= i < |WindowsOf(c, content)| =>
      (WindowsIn(c, content, i); ChunkOf(nm, path, SplitLines(content), WindowsOf(c, content)[i])))
  }

  /** The byte range of every chunk is the text of the chunk. */
  lemma ChunkInPlace(c: TextChunker, nm: Naming, path: string, content: string, i: nat)
    requires ChunkerOk(c) && i < |ChunksOfText(c, nm, path, content)|
    ensures var k := ChunksOfText(c, nm, path, content)[i];
      0 < k.len == |k.text| && k.offset + k.len <= |content| && content[k.offset .. k.offset + k.len] == k.text
  {
    var lines, w := SplitLines(content), WindowsOf(c, content)[i];
    SplitAreLines(content);
    WindowsIn(c, content, i);
    Cut(lines, w.start, w.end);
    SliceNotEmpty(lines, w.start, w.end);
  }

  lemma Cut(lines: seq<string>, a: nat, b: nat)
    requires a <= b <= |lines|
    ensures Join(lines) == Join(lines[..a]) + Join(lines[a..b]) + Join(lines[b..])
  {
    hide Join;
    TwoParts(lines, a);
    TwoParts(lines[a..], b - a);
    assert lines[a..][..b - a] == lines[a..b] && lines[a..][b - a..] == lines[b..];
    JoinAppend(lines[..a], lines[a..]);
    JoinAppend(lines[a..b], lines[b..]);
    ConcatAssoc(Join(lines[..a]), Join(lines[a..b]), Join(lines[b..]));
  }

  lemma SliceNotEmpty(lines: seq<string>, a: nat, b: nat)
    requires AreLines(lines) && a < b <= |lines|
    ensures Join(lines[a..b]) != ""
  {
    assert IsLine(lines[a..b][0]);
  }

  /** Offsets go up from chunk to chunk, so no two ids of a file are the same. */
  lemma IdsDistinct(c: TextChunker, nm: Naming, path: string, content: string, i: nat, j: nat)
    requires ChunkerOk(c) && NamingOk(nm) && i < j < |ChunksOfText(c, nm, path, content)|
    ensures ChunksOfText(c, nm, path, content)[i].offset < ChunksOfText(c, nm, path, content)[j].offset
    ensures ChunksOfText(c, nm, path, content)[i].id != ChunksOfText(c, nm, path, content)[j].id
  {
    hide MakeId;
    var lines, w := SplitLines(content), WindowsOf(c, content);
    SplitAreLines(content);
    WindowsIn(c, content, i);
    WindowsIn(c, content, j);
    StartsIncrease(c, content, i, j);
    JoinSlices(lines, 0, w[i].start, w[j].start);
    SliceNotEmpty(lines, w[i].start, w[j].start);
    var a, b := ChunksOfText(c, nm, path, content)[i], ChunksOfText(c, nm, path, content)[j];
    if a.id == b.id { IdsTellOffsets(nm, path, a.offset, a.text, b.offset, b.text); }
  }

  lemma {:induction false} StartsIncrease(c: TextChunker, content: string, i: nat, j: nat)
    requires ChunkerOk(c) && i < j < |WindowsOf(c, content)|
    ensures WindowsOf(c, content)[i].start < WindowsOf(c, content)[j].start
    decreases j
  {
    hide SplitLines, Windows, AreLines, Join;
    SplitAreLines(content);
    WindowsShape(|SplitLines(content)|, c.window, c.window - c.stride, 0);
    if i < j - 1 { StartsIncrease(c, content, i, j - 1); }
  }

  // ---------- putting the file together again ----------

  /** A chunk without its first lines. */
  function Dropped(text: string, stride: nat): string {
    var lines := SplitLines(text);
    if stride <= |lines| then Join(lines[stride..]) else ""
  }

  /** The first chunk, then every later chunk without the lines it shares with the one before. */
  function Reassembled(chunks: seq<Chunk>, stride: nat): string {
    if chunks == [] then ""
    else if |chunks| == 1 then chunks[0].text
    else Reassembled(chunks[..|chunks| - 1], stride) + Dropped(chunks[|chunks| - 1].text, stride)
  }

  lemma DroppedLines(lines: seq<string>, a: nat, b: nat, stride: nat)
    requires AreLines(lines) && a <= b <= |lines| && stride <= b - a
    ensures Dropped(Join(lines[a..b]), stride) == Join(lines[a + stride..b])
  {
    SliceAreLines(lines, a, b);
    SplitJoin(lines[a..b]);
    assert lines[a..b][stride..] == lines[a + stride..b];
  }

  lemma {:induction false} ReassembledTo(c: TextChunker, nm: Naming, path: string, content: string, i: nat)
    requires ChunkerOk(c) && i < |ChunksOfText(c, nm, path, content)|
    ensures WindowsOf(c, content)[i].end <= |SplitLines(content)|
    ensures Reassembled(ChunksOfText(c, nm, path, content)[..i + 1], c.stride)
      == Join(SplitLines(content)[..WindowsOf(c, content)[i].end])
  {
    hide MakeId, Join, SplitLines, Dropped, Windows;
    var lines, w, chunks := SplitLines(content), WindowsOf(c, content), ChunksOfText(c, nm, path, content);
    SplitAreLines(content);
    WindowsShape(|lines|, c.window, c.window - c.stride, 0);
    if i == 0 {
      assert lines[0..w[0].end] == lines[..w[0].end];
    } else {
      ReassembledTo(c, nm, path, content, i - 1);
      assert chunks[..i + 1][..i] == chunks[..i];
      assert w[i - 1].end == w[i].start + c.stride && w[i - 1].end < w[i].end;
      DroppedLines(lines, w[i].start, w[i].end, c.stride);
      JoinSlices(lines, 0, w[i - 1].end, w[i].end);
      assert lines[0..w[i - 1].end] == lines[..w[i - 1].end] && lines[0..w[i].end] == lines[..w[i].end];
    }
  }

  /** Dropping the shared lines and concatenating gives back the content, byte for byte. */
  lemma ReassemblesContent(c: TextChunker, nm: Naming, path: string, content: string)
    requires ChunkerOk(c)
    ensures Reassembled(ChunksOfText(c, nm, path, content), c.stride) == content
  {
    hide Join, SplitLines, Dropped, Reassembled;
    var n := |ChunksOfText(c, nm, path, content)|;
    SplitAreLines(content);
    if content == "" {
      NothingToReassemble(c.stride);
    } else {
      WindowsShape(|SplitLines(content)|, c.window, c.window - c.stride, 0);
      ReassembledTo(c, nm, path, content, n - 1);
      assert ChunksOfText(c, nm, path, content)[..n] == ChunksOfText(c, nm, path, content);
      assert SplitLines(content)[..|SplitLines(content)|] == SplitLines(content);
    }
  }

  lemma NothingToReassemble(stride: nat)
    ensures Reassembled([], stride) == ""
  {
  }

  /** Neighbouring chunks share exactly `stride` lines: the last ones of the first, the first ones of the second. */
  lemma NeighboursShare(c: TextChunker, nm: Naming, path: string, content: string, i: nat)
    requires ChunkerOk(c) && i + 1 < |ChunksOfText(c, nm, path, content)|
    ensures var a := SplitLines(ChunksOfText(c, nm, path, content)[i].text);
      var b := SplitLines(ChunksOfText(c, nm, path, content)[i + 1].text);
      |a| == c.window && c.stride < |b| && a[|a| - c.stride..] == b[..c.stride]
  {
    hide MakeId, Join, SplitLines, Windows;
    var lines, w := SplitLines(content), WindowsOf(c, content);
    SplitAreLines(content);
    WindowsShape(|lines|, c.window, c.window - c.stride, 0);
    SliceAreLines(lines, w[i].start, w[i].end);
    SliceAreLines(lines, w[i + 1].start, w[i + 1].end);
    SplitJoin(lines[w[i].start..w[i].end]);
    SplitJoin(lines[w[i + 1].start..w[i + 1].end]);
    SharedSlice(lines, w[i].start, w[i].end, w[i + 1].start, w[i + 1].end);
  }

  lemma SharedSlice(lines: seq<string>, a: nat, b: nat, a': nat, b': nat)
    requires a <= a' <= b <= b' <= |lines|
    ensures lines[a..b][a' - a..] == lines[a'..b'][..b - a']
  {
  }

  // ---------- indexing ----------

  /** The rows of a file, with whatever vectors its chunks have. */
  function RowsOfFile(chunks: seq<Chunk>, embed: Chunk -> Vec): (r: seq<Row>)
    ensures |r| == |chunks|
  {
    seq(|chunks|, i requires 0 <= i < |chunks| => Row(chunks[i], embed(chunks[i])))
  }

  /** Indexing an unchanged file again leaves the store as it is. */
  lemma ReindexUnchanged(c: TextChunker, nm: Naming, path: string, content: string, rows: seq<Row>, embed: Chunk -> Vec)
    requires ChunkerOk(c) && NamingOk(nm) && Distinct(rows)
    ensures var rs := RowsOfFile(ChunksOfText(c, nm, path, content), embed);
      Distinct(rs) && PutAll(PutAll(rows, rs), rs) == PutAll(rows, rs)
  {
    hide ChunksOfText, PutAll;
    var chunks := ChunksOfText(c, nm, path, content);
    var rs := RowsOfFile(chunks, embed);
    forall i, j | 0 <= i < j < |rs| ensures rs[i].chunk.id != rs[j].chunk.id {
      IdsDistinct(c, nm, path, content, i, j);
    }
    PutAllTwice(rows, rs);
  }

  // ---------- the loops ----------

  datatype LineInfo = LineInfo(pos: nat, len: nat)

  /** Byte offset and length of every line. */
  method LineTable(content: string) returns (info: seq<LineInfo>)
    ensures var lines := SplitLines(content);
      |info| == |lines| && forall i | 0 <= i < |lines| :: info[i] == LineInfo(|Join(lines[..i])|, |lines[i]|)
  {
    hide SplitLines, Join;
    var lines := SplitLines(content);
    info := [];
    var pos := 0;
    JoinNothing(lines);
    for i := 0 to |lines|
      invariant |info| == i && pos == |Join(lines[..i])|
      invariant forall k | 0 <= k < i :: info[k] == LineInfo(|Join(lines[..k])|, |lines[k]|)
    {
      JoinNext(lines, i);
      info := info + [LineInfo(pos, |lines[i]|)];
      pos := pos + |lines[i]|;
    }
  }

  lemma JoinNothing(lines: seq<string>)
    ensures Join(lines[..0]) == ""
  {
  }

  lemma JoinNext(lines: seq<string>, i: nat)
    requires i < |lines|
    ensures Join(lines[..i + 1]) == Join(lines[..i]) + lines[i]
  {
    assert lines[..i + 1] == lines[..i] + [lines[i]];
    JoinAppend(lines[..i], [lines[i]]);
    assert [lines[i]][1..] == [];
  }

  /** From the start of one line to the end of another the content is the lines between. */
  lemma ByteRange(content: string, lines: seq<string>, a: nat, b: nat)
    requires content == Join(lines) && a < b <= |lines|
    ensures |Join(lines[..a])| <= |Join(lines[..b - 1])| + |lines[b - 1]| <= |content|
    ensures content[|Join(lines[..a])| .. |Join(lines[..b - 1])| + |lines[b - 1]|] == Join(lines[a..b])
  {
    hide Join;
    JoinNext(lines, b - 1);
    JoinSlices(lines, 0, a, b);
    Cut(lines, a, b);
    assert lines[0..a] == lines[..a] && lines[0..b] == lines[..b];
  }

  /** The chunk of the lines from `start` to `end`. */
  method MakeChunk(nm: Naming, path: string, content: string, ghost lines: seq<string>, lineInfo: seq<LineInfo>,
                   start: nat, end: nat) returns (chunk: Chunk)
    requires content == Join(lines) && start < end <= |lines| == |lineInfo|
    requires forall i | 0 <= i < |lines| :: lineInfo[i] == LineInfo(|Join(lines[..i])|, |lines[i]|)
    ensures chunk == ChunkOf(nm, path, lines, Window(start, end))
  {
    hide Join, MakeId;
    var byteStart := lineInfo[start].pos;
    var last := lineInfo[end - 1];
    var byteEnd := last.pos + last.len;
    ByteRange(content, lines, start, end);
    var text := content[byteStart..byteEnd];
    var id := MakeId(nm, path, byteStart, text);
    chunk := Chunk(id, text, path, byteStart, byteEnd - byteStart, nm.lang(path));
  }

  lemma WindowStep(w: seq<Window>, k: nat, n: nat, window: nat, step: nat, start: nat)
    requires 0 < step <= window && start < n && k < |w| && w[k..] == Windows(n, window, step, start)
    ensures var end := Min(start + window, n);
      && w[k] == Window(start, end)
      && (end == n ==> |w| == k + 1)
      && (end < n ==> k + 1 < |w| && start + step < n && w[k + 1..] == Windows(n, window, step, start + step))
  {
    assert w[k] == w[k..][0] && w[k..][1..] == w[k + 1..];
  }

  method ChunkText(c: TextChunker, nm: Naming, path: string, content: string) returns (chunks: seq<Chunk>)
    requires ChunkerOk(c)
    ensures chunks == ChunksOfText(c, nm, path, content)
  {
    hide SplitLines, Join, ChunkOf, Windows, AreLines;
    if content == "" { return []; }
    SplitAreLines(content);
    var lineInfo := LineTable(content);
    var nLines := |lineInfo|;
    ghost var lines, w := SplitLines(content), WindowsOf(c, content);
    var step := c.window - c.stride;
    chunks := [];
    var start := 0;
    while true
      invariant start < nLines && |chunks| < |w|
      invariant w[|chunks|..] == Windows(nLines, c.window, step, start)
      invariant forall k | 0 <= k < |chunks| ::
        w[k].start <= w[k].end <= |lines| && chunks[k] == ChunkOf(nm, path, lines, w[k])
      decreases nLines - start
    {
      var end := if start + c.window < nLines then start + c.window else nLines;
      WindowStep(w, |chunks|, nLines, c.window, step, start);
      var chunk := MakeChunk(nm, path, content, lines, lineInfo, start, end);
      chunks := chunks + [chunk];
      if end == nLines { break; }
      start := start + step;
    }
  }
}
