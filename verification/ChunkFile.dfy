/** The chunk file: one encoded chunk per line. Strings are sequences of bytes, each written as a character. */
module ChunkFile {
  import opened Wrappers

  datatype Chunk = Chunk(id: string, text: string, path: string, offset: nat, len: nat, lang: Option<string>)

  /** The JSON encoding of a chunk, left open. */
  datatype Codec = Codec(enc: Chunk -> string, dec: string -> Option<Chunk>)

  /** White space, as far as it is ASCII: tab, line feed, vertical tab, form feed, carriage return and space. */
  predicate IsSpace(c: char) { 0x09 <= c as int <= 0x0D || c == ' ' }

  predicate Blank(s: string) { forall i | 0 <= i < |s| :: IsSpace(s[i]) }

  /** All that is assumed of the encoding: it can be undone, it has no line break, and it stands in braces. */
  ghost predicate CodecOk(codec: Codec) {
    forall c: Chunk ::
      && codec.dec(codec.enc(c)) == Some(c) && '\n' !in codec.enc(c)
      && |codec.enc(c)| >= 2 && codec.enc(c)[0] == '{' && codec.enc(c)[|codec.enc(c)| - 1] == '}'
  }

  lemma EncodedLine(codec: Codec, c: Chunk)
    requires CodecOk(codec)
    ensures '\n' !in codec.enc(c) && !Blank(codec.enc(c)) && Chomp(codec.enc(c)) == codec.enc(c)
  {
  }

  /** Without a carriage return at the end. */
  function Chomp(s: string): string { if s != "" && s[|s| - 1] == '\r' then s[..|s| - 1] else s }

  function FileText(chunks: seq<Chunk>, codec: Codec): string {
    if chunks == [] then "" else codec.enc(chunks[0]) + "\n" + FileText(chunks[1..], codec)
  }

  /** The place of the first line break, or the end. */
  function Newline(text: string): (k: nat)
    ensures k <= |text| && '\n' !in text[..k] && (k < |text| ==> text[k] == '\n')
  {
    if text == "" || text[0] == '\n' then 0
    else
      var k := 1 + Newline(text[1..]);
      assert text[..k] == [text[0]] + text[1..][..k - 1];
      k
  }

  /** The lines of a text, as a buffered reader yields them. */
  function Lines(text: string): seq<string>
    decreases |text|
  {
    if text == "" then []
    else
      var k := Newline(text);
      if k == |text| then [text] else [Chomp(text[..k])] + Lines(text[k + 1..])
  }

  /** The chunks of the lines that are not blank; nothing if one does not parse. */
  function Parse(lines: seq<string>, codec: Codec): Option<seq<Chunk>> {
    if lines == [] then Some([])
    else
      var n := |lines| - 1;
      var rest := Parse(lines[..n], codec);
      if rest.None? || Blank(lines[n]) then rest
      else
        var c := codec.dec(lines[n]);
        if c.None? then None else Some(rest.value + [c.value])
  }

  lemma NewlineAt(a: string, b: string)
    requires '\n' !in a
    ensures Newline(a + "\n" + b) == |a|
  {
    var t := a + "\n" + b;
    var k := Newline(t);
    assert t[|a|] == '\n';
    assert forall i | 0 <= i < |a| :: t[i] == a[i] && a[i] != '\n';
    assert forall i | 0 <= i < k :: t[..k][i] == t[i] && t[i] != '\n';
  }

  function Encoded(chunks: seq<Chunk>, codec: Codec): (r: seq<string>)
    ensures |r| == |chunks|
  {
    seq(|chunks|, i requires 0 <= i < |chunks| => codec.enc(chunks[i]))
  }

  /** Reading the lines of a chunk file gives back the encoded chunks. */
  lemma {:induction false} LinesOfFile(chunks: seq<Chunk>, codec: Codec)
    requires CodecOk(codec)
    ensures Lines(FileText(chunks, codec)) == Encoded(chunks, codec)
  {
    if chunks == [] {
    } else {
      var e, rest := codec.enc(chunks[0]), FileText(chunks[1..], codec);
      EncodedLine(codec, chunks[0]);
      NewlineAt(e, rest);
      var t := e + "\n" + rest;
      assert t[..|e|] == e && t[|e| + 1..] == rest;
      LinesOfFile(chunks[1..], codec);
      assert Encoded(chunks, codec) == [e] + Encoded(chunks[1..], codec);
    }
  }

  lemma {:induction false} ParseEncoded(chunks: seq<Chunk>, codec: Codec)
    requires CodecOk(codec)
    ensures Parse(Encoded(chunks, codec), codec) == Some(chunks)
  {
    if chunks != [] {
      var n := |chunks| - 1;
      ParseEncoded(chunks[..n], codec);
      assert Encoded(chunks, codec)[..n] == Encoded(chunks[..n], codec);
      EncodedLine(codec, chunks[n]);
      assert chunks[..n] + [chunks[n]] == chunks;
    } else {
      assert Encoded(chunks, codec) == [];
    }
  }

  /** A line may end in a line feed or in a carriage return and a line feed, or at the end of the text. */
  lemma LineEnds(line: string, rest: string)
    requires '\n' !in line
    ensures line == "" || line[|line| - 1] != '\r' ==> Lines(line + "\n" + rest) == [line] + Lines(rest)
    ensures Lines(line + "\r" + "\n" + rest) == [line] + Lines(rest)
    ensures line != "" ==> Lines(line) == [line]
  {
    NewlineAt(line, rest);
    var t := line + "\n" + rest;
    assert t[..|line|] == line && t[|line| + 1..] == rest;
    var line', t' := line + "\r", line + "\r" + "\n" + rest;
    NewlineAt(line', rest);
    assert t'[..|line'|] == line' && t'[|line'| + 1..] == rest && line'[..|line|] == line;
  }

  /** Lines of white space count for nothing, wherever they stand. */
  lemma {:induction false} BlankSkipped(a: seq<string>, blank: string, b: seq<string>, codec: Codec)
    requires forall i | 0 <= i < |blank| :: blank[i] as int in {0x09, 0x0A, 0x0B, 0x0C, 0x0D, 0x20}
    ensures Parse(a + [blank] + b, codec) == Parse(a + b, codec)
    decreases |b|
  {
    var lines := a + [blank] + b;
    var n := |lines| - 1;
    if b == [] {
      assert lines[..n] == a && a + b == a;
    } else {
      var k := |b| - 1;
      BlankSkipped(a, blank, b[..k], codec);
      assert lines[..n] == a + [blank] + b[..k] && (a + b)[..|a + b| - 1] == a + b[..k];
    }
  }

  /** A line that is not white space and does not decode makes the file unreadable; one that does adds its chunk. */
  lemma {:induction false} ParseMeaning(lines: seq<string>, codec: Codec)
    ensures Parse(lines, codec).None? <==>
      exists i, j | 0 <= i < |lines| && 0 <= j < |lines[i]| ::
        lines[i][j] as int !in {0x09, 0x0A, 0x0B, 0x0C, 0x0D, 0x20} && codec.dec(lines[i]).None?
  {
    if lines != [] {
      var n := |lines| - 1;
      ParseMeaning(lines[..n], codec);
      assert forall i | 0 <= i < n :: lines[..n][i] == lines[i];
    }
  }

  /** A chunk file reads back as the chunks that were written. */
  lemma FileRoundTrip(chunks: seq<Chunk>, codec: Codec)
    requires CodecOk(codec)
    ensures Parse(Lines(FileText(chunks, codec)), codec) == Some(chunks)
  {
    LinesOfFile(chunks, codec);
    ParseEncoded(chunks, codec);
  }

  lemma {:induction false} FileTextSnoc(chunks: seq<Chunk>, c: Chunk, codec: Codec)
    ensures FileText(chunks + [c], codec) == FileText(chunks, codec) + codec.enc(c) + "\n"
  {
    if chunks == [] {
      assert [c][1..] == [];
    } else {
      FileTextSnoc(chunks[1..], c, codec);
      assert (chunks + [c])[1..] == chunks[1..] + [c];
    }
  }

  method WriteChunks(chunks: seq<Chunk>, codec: Codec) returns (text: string)
    ensures text == FileText(chunks, codec)
  {
    text := "";
    for i := 0 to |chunks|
      invariant text == FileText(chunks[..i], codec)
    {
      FileTextSnoc(chunks[..i], chunks[i], codec);
      assert chunks[..i + 1] == chunks[..i] + [chunks[i]];
      text := text + codec.enc(chunks[i]) + "\n";
    }
    assert chunks[..|chunks|] == chunks;
  }

  method ReadChunks(text: string, codec: Codec) returns (r: Option<seq<Chunk>>)
    ensures r == Parse(Lines(text), codec)
  {
    var lines := Lines(text);
    var chunks: seq<Chunk> := [];
    for i := 0 to |lines|
      invariant Parse(lines[..i], codec) == Some(chunks)
    {
      assert lines[..i + 1][..i] == lines[..i];
      if !Blank(lines[i]) {
        var c := codec.dec(lines[i]);
        if c.None? {
          NoParse(lines, i + 1, codec);
          return None;
        }
        chunks := chunks + [c.value];
      }
    }
    assert lines[..|lines|] == lines;
    r := Some(chunks);
  }

  lemma {:induction false} NoParse(lines: seq<string>, i: nat, codec: Codec)
    requires i <= |lines| && Parse(lines[..i], codec) == None
    ensures Parse(lines, codec) == None
    decreases |lines|
  {
    if i < |lines| {
      assert lines[..|lines| - 1][..i] == lines[..i];
      NoParse(lines[..|lines| - 1], i, codec);
    } else {
      assert lines[..i] == lines;
    }
  }
}
