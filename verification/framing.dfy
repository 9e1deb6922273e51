/** Chunk framing of the search command protocol: a transport header
    `chunked 1.0,<metadata length>,<body length>\n` followed by the two
    segments. The reader is `SearchCommand._read_chunk`; the writer here is
    `SearchCommand._write_chunk` (the record writer's own variant lives in
    `RecordWriting`). The metadata segment is opaque text: `parse` and
    `dumps` stand for the JSON library. */
module Framing {
  import opened Common
  import opened Metadata

  // ------------------------------------------------------------- streams

  /** The first index past the line that starts at `i`: just past its `\n`,
      or the end of the text when no `\n` follows. */
  function LineEnd(s: string, i: nat): (j: nat)
    requires i <= |s|
    ensures i <= j <= |s|
    ensures forall k :: i <= k < j - 1 ==> s[k] != '\n'
    ensures j == |s| || (j > i && s[j - 1] == '\n')
    ensures j > i || i == |s|
    ensures j - 1 >= i && s[j - 1] != '\n' ==> j == |s|
    decreases |s| - i
  {
    if i == |s| then i else if s[i] == '\n' then i + 1 else LineEnd(s, i + 1)
  }

  /** What `readline()` returns when the stream stands at `i`. */
  function LineAt(s: string, i: nat): string
    requires i <= |s|
  {
    s[i..LineEnd(s, i)]
  }

  /** A readable stream over a fixed text; `pos` is the read position. */
  class InputStream {
    const data: string
    var pos: nat

    predicate Valid()
      reads this
    {
      pos <= |data|
    }

    constructor(data: string)
      ensures this.data == data && pos == 0 && Valid()
    {
      this.data := data;
      pos := 0;
    }

    /** `readline()`: up to and including the next `\n`, `""` at the end. */
    method ReadLine() returns (line: string)
      requires Valid()
      modifies this
      ensures Valid()
      ensures line == LineAt(data, old(pos)) && pos == old(pos) + |line|
    {
      var j := LineEnd(data, pos);
      line := data[pos..j];
      pos := j;
    }

    /** `read(n)`: at most `n` characters; fewer only at the end. */
    method Read(n: nat) returns (s: string)
      requires Valid()
      modifies this
      ensures Valid()
      ensures s == data[old(pos)..Min(old(pos) + n, |data|)] && pos == old(pos) + |s|
    {
      var j := Min(pos + n, |data|);
      s := data[pos..j];
      pos := j;
    }
  }

  /** A writable stream; `text` is everything written so far. */
  class OutputStream {
    var text: string

    constructor()
      ensures text == ""
    {
      text := "";
    }

    method Write(s: string)
      modifies this
      ensures text == old(text) + s
    {
      text := text + s;
    }
  }

  // ----------------------------------------------------- header grammar

  /** `\s` of the pattern, which carries no Unicode flag. */
  predicate IsSpace(c: char) {
    c == ' ' || c == '\t' || c == '\n' || c == '\r' || c == '\U{C}' || c == '\U{B}'
  }

  predicate AllDigits(s: string) {
    forall k :: 0 <= k < |s| ==> IsDigit(s[k])
  }

  /** Where the match of `chunked\s+1.0\s*,\s*(\d+)\s*,\s*(\d+)\s*\n`
      stands. Every run in the pattern is followed by a character the run
      cannot take, so greedy matching never has to give characters back,
      except in the last `\s*`: there the match succeeds as soon as a `\n`
      appears in the whitespace. */
  datatype Stage =
    | Keyword(k: nat)   // "chunked"[k] comes next
    | Gap(seen: bool)   // `\s+`, with at least one space seen when `seen`
    | Version(k: nat)   // after "1": any character but `\n` (k == 1), then "0"
    | BeforeComma1      // `\s*,`
    | BeforeMeta        // `\s*` before the metadata length
    | Meta              // inside the metadata length
    | BeforeComma2      // `\s*,`
    | BeforeBody        // `\s*` before the body length
    | Body              // inside the body length
    | Trailer           // `\s*\n`

  /** `re.match` of the header pattern from position `i` in stage `st`, with
      the digits of the two lengths collected so far. A `re.match` is anchored
      at the start only: whatever follows the final `\n` is not looked at. */
  function Scan(line: string, i: nat, st: Stage, m: string, b: string): Option<(nat, nat)>
    requires i <= |line| && AllDigits(m) && AllDigits(b)
    decreases |line| - i
  {
    if i == |line| then None
    else
      var c := line[i];
      match st
      case Keyword(k) =>
        if k < 7 && c == "chunked"[k] then Scan(line, i + 1, if k == 6 then Gap(false) else Keyword(k + 1), m, b)
        else None
      case Gap(seen) =>
        if IsSpace(c) then Scan(line, i + 1, Gap(true), m, b)
        else if seen && c == '1' then Scan(line, i + 1, Version(1), m, b)
        else None
      case Version(k) =>
        if k == 1 && c != '\n' then Scan(line, i + 1, Version(2), m, b)
        else if k == 2 && c == '0' then Scan(line, i + 1, BeforeComma1, m, b)
        else None
      case BeforeComma1 =>
        if IsSpace(c) then Scan(line, i + 1, BeforeComma1, m, b)
        else if c == ',' then Scan(line, i + 1, BeforeMeta, m, b)
        else None
      case BeforeMeta =>
        if IsSpace(c) then Scan(line, i + 1, BeforeMeta, m, b)
        else if IsDigit(c) then Scan(line, i + 1, Meta, m + [c], b)
        else None
      case Meta =>
        if IsDigit(c) then Scan(line, i + 1, Meta, m + [c], b)
        else if IsSpace(c) then Scan(line, i + 1, BeforeComma2, m, b)
        else if c == ',' then Scan(line, i + 1, BeforeBody, m, b)
        else None
      case BeforeComma2 =>
        if IsSpace(c) then Scan(line, i + 1, BeforeComma2, m, b)
        else if c == ',' then Scan(line, i + 1, BeforeBody, m, b)
        else None
      case BeforeBody =>
        if IsSpace(c) then Scan(line, i + 1, BeforeBody, m, b)
        else if IsDigit(c) then Scan(line, i + 1, Body, m, b + [c])
        else None
      case Body =>
        if IsDigit(c) then Scan(line, i + 1, Body, m, b + [c])
        else if c == '\n' then Some((DigitsValue(m), DigitsValue(b)))
        else if IsSpace(c) then Scan(line, i + 1, Trailer, m, b)
        else None
      case Trailer =>
        if c == '\n' then Some((DigitsValue(m), DigitsValue(b)))
        else if IsSpace(c) then Scan(line, i + 1, Trailer, m, b)
        else None
  }

  /** The header pattern matched against a line: the two lengths, or `None`
      when the line does not match. */
  function MatchHeader(line: string): Option<(nat, nat)> {
    Scan(line, 0, Keyword(0), "", "")
  }

  /** The header `'chunked 1.0,%d,%d\n' % (m, b)`. */
  function Header(m: nat, b: nat): string {
    "chunked 1.0," + NatToString(m) + "," + NatToString(b) + "\n"
  }

  /** A header and the two segments it announces. */
  function ChunkText(metadata: string, body: string): string {
    Header(|metadata|, |body|) + metadata + body
  }

  /** A run of digits inside the metadata length is collected whole. */
  lemma {:induction false} ScanMetaDigits(line: string, i: nat, d: string, m: string, b: string)
    requires i + |d| <= |line| && line[i..i + |d|] == d
    requires AllDigits(d) && AllDigits(m) && AllDigits(b)
    ensures AllDigits(m + d)
    ensures Scan(line, i, Meta, m, b) == Scan(line, i + |d|, Meta, m + d, b)
    decreases |d|
  {
    if |d| == 0 {
      assert m + d == m;
    } else {
      assert line[i] == d[0];
      assert line[i + 1..i + |d|] == d[1..];
      assert AllDigits(m + [d[0]]);
      ScanMetaDigits(line, i + 1, d[1..], m + [d[0]], b);
      assert m + [d[0]] + d[1..] == m + d;
    }
  }

  /** A run of digits inside the body length is collected whole. */
  lemma {:induction false} ScanBodyDigits(line: string, i: nat, d: string, m: string, b: string)
    requires i + |d| <= |line| && line[i..i + |d|] == d
    requires AllDigits(d) && AllDigits(m) && AllDigits(b)
    ensures AllDigits(b + d)
    ensures Scan(line, i, Body, m, b) == Scan(line, i + |d|, Body, m, b + d)
    decreases |d|
  {
    if |d| == 0 {
      assert b + d == b;
    } else {
      assert line[i] == d[0];
      assert line[i + 1..i + |d|] == d[1..];
      assert AllDigits(b + [d[0]]);
      ScanBodyDigits(line, i + 1, d[1..], m, b + [d[0]]);
      assert b + [d[0]] + d[1..] == b + d;
    }
  }

  /** The fixed text `chunked 1.0,` takes the scanner to the metadata length. */
  lemma ScanKeyword(h: string)
    requires |h| > 12 && h[..12] == "chunked 1.0,"
    ensures Scan(h, 0, Keyword(0), "", "") == Scan(h, 12, BeforeMeta, "", "")
  {
    assert forall k :: 0 <= k < 12 ==> h[k] == "chunked 1.0,"[k];
    assert Scan(h, 0, Keyword(0), "", "") == Scan(h, 1, Keyword(1), "", "");
    assert Scan(h, 1, Keyword(1), "", "") == Scan(h, 2, Keyword(2), "", "");
    assert Scan(h, 2, Keyword(2), "", "") == Scan(h, 3, Keyword(3), "", "");
    assert Scan(h, 3, Keyword(3), "", "") == Scan(h, 4, Keyword(4), "", "");
    assert Scan(h, 4, Keyword(4), "", "") == Scan(h, 5, Keyword(5), "", "");
    assert Scan(h, 5, Keyword(5), "", "") == Scan(h, 6, Keyword(6), "", "");
    assert Scan(h, 6, Keyword(6), "", "") == Scan(h, 7, Gap(false), "", "");
    assert Scan(h, 7, Gap(false), "", "") == Scan(h, 8, Gap(true), "", "");
    assert Scan(h, 8, Gap(true), "", "") == Scan(h, 9, Version(1), "", "");
    assert Scan(h, 9, Version(1), "", "") == Scan(h, 10, Version(2), "", "");
    assert Scan(h, 10, Version(2), "", "") == Scan(h, 11, BeforeComma1, "", "");
  }

  /** `<digits>,` where the metadata length is due collects the digits. */
  lemma ScanMetaLength(h: string, i: nat, ms: string)
    requires |ms| > 0 && AllDigits(ms)
    requires i + |ms| < |h| && h[i..i + |ms|] == ms && h[i + |ms|] == ','
    ensures Scan(h, i, BeforeMeta, "", "") == Scan(h, i + |ms| + 1, BeforeBody, ms, "")
  {
    assert h[i] == ms[0];
    assert "" + [ms[0]] == [ms[0]];
    assert Scan(h, i, BeforeMeta, "", "") == Scan(h, i + 1, Meta, [ms[0]], "");
    assert h[i + 1..i + |ms|] == ms[1..];
    ScanMetaDigits(h, i + 1, ms[1..], [ms[0]], "");
    assert [ms[0]] + ms[1..] == ms;
  }

  /** `<digits>\n` where the body length is due completes the match. */
  lemma ScanBodyLength(h: string, i: nat, ms: string, bs: string)
    requires |bs| > 0 && AllDigits(bs) && AllDigits(ms)
    requires i + |bs| < |h| && h[i..i + |bs|] == bs && h[i + |bs|] == '\n'
    ensures Scan(h, i, BeforeBody, ms, "") == Some((DigitsValue(ms), DigitsValue(bs)))
  {
    assert h[i] == bs[0];
    assert "" + [bs[0]] == [bs[0]];
    assert Scan(h, i, BeforeBody, ms, "") == Scan(h, i + 1, Body, ms, [bs[0]]);
    assert h[i + 1..i + |bs|] == bs[1..];
    ScanBodyDigits(h, i + 1, bs[1..], ms, [bs[0]]);
    assert [bs[0]] + bs[1..] == bs;
  }

  /** Every header the writers emit is accepted by the reader's pattern and
      yields the same two lengths. */
  lemma HeaderMatches(m: nat, b: nat)
    ensures MatchHeader(Header(m, b)) == Some((m, b))
  {
    var ms := NatToString(m);
    var bs := NatToString(b);
    var h := Header(m, b);
    assert h == "chunked 1.0," + ms + "," + bs + "\n";
    assert h[..12] == "chunked 1.0,";
    var d := 12 + |ms|;
    assert h[12..d] == ms && h[d] == ',';
    assert h[d + 1..d + 1 + |bs|] == bs && h[d + 1 + |bs|] == '\n';
    ScanKeyword(h);
    ScanMetaLength(h, 12, ms);
    ScanBodyLength(h, d + 1, ms, bs);
    DigitsValueOfNatToString(m);
    DigitsValueOfNatToString(b);
  }

  /** A header is a single line: read from a stream it ends exactly at its
      `\n`, whatever follows. */
  lemma HeaderIsOneLine(m: nat, b: nat, s: string, i: nat)
    requires i + |Header(m, b)| <= |s| && s[i..i + |Header(m, b)|] == Header(m, b)
    ensures LineAt(s, i) == Header(m, b)
  {
    var h := Header(m, b);
    var j := LineEnd(s, i);
    assert forall k :: 0 <= k < |h| - 1 ==> h[k] != '\n' by {
      var ms := NatToString(m);
      var bs := NatToString(b);
      assert h == "chunked 1.0," + ms + "," + bs + "\n";
      forall k | 0 <= k < |h| - 1 ensures h[k] != '\n' {
        if 12 <= k < 12 + |ms| {
          assert h[k] == ms[k - 12];
        } else if 13 + |ms| <= k < |h| - 1 {
          assert h[k] == bs[k - 13 - |ms|];
        }
      }
    }
    assert forall k :: i <= k < i + |h| - 1 ==> s[k] == h[k - i] && s[k] != '\n';
    assert s[i + |h| - 1] == h[|h| - 1] == '\n';
  }

  // -------------------------------------------------------------- reading

  datatype Chunk = Chunk(metadata: Json, body: string)

  /** The two segments that follow a header ending at `p`, read in order,
      each at most as long as announced (a short read at the end of input is
      not an error), and the position after them. Metadata that does not
      parse gives `None` after both reads. */
  function Segments(s: string, p: nat, m: nat, b: nat, parse: string -> Option<Json>): (r: (Option<Chunk>, nat))
    requires p <= |s|
    ensures p <= r.1 <= |s|
  {
    var q := Min(p + m, |s|);
    var t := Min(q + b, |s|);
    var metadata := parse(s[p..q]);
    if metadata.None? then (None, t) else (Some(Chunk(metadata.value, s[q..t])), t)
  }

  /** The chunk `_read_chunk` returns from a stream standing at `i`, and the
      position it leaves the stream at. An empty line (end of input) and a
      header the pattern refuses give `None`; otherwise the segments follow
      the header line. */
  function NextChunk(s: string, i: nat, parse: string -> Option<Json>): (r: (Option<Chunk>, nat))
    requires i <= |s|
    ensures i <= r.1 <= |s|
    ensures r.0.Some? ==> i < r.1
  {
    var line := LineAt(s, i);
    var lengths := MatchHeader(line);
    if |line| == 0 then (None, i)
    else if lengths.None? then (None, i + |line|)
    else Segments(s, i + |line|, lengths.value.0, lengths.value.1, parse)
  }

  /** `SearchCommand._read_chunk(f)`. */
  method ReadChunk(f: InputStream, parse: string -> Option<Json>) returns (r: Option<Chunk>)
    requires f.Valid()
    modifies f
    ensures f.Valid()
    ensures (r, f.pos) == NextChunk(f.data, old(f.pos), parse)
  {
    ghost var start := f.pos;
    var header := f.ReadLine();
    if |header| == 0 {
      return None;
    }
    var lengths := MatchHeader(header);
    if lengths.None? {
      return None;
    }
    ghost var p := f.pos;
    var metadataBuffer := f.Read(lengths.value.0);
    var body := f.Read(lengths.value.1);
    var metadata := parse(metadataBuffer);
    assert (if metadata.None? then None else Some(Chunk(metadata.value, body)), f.pos)
      == Segments(f.data, p, lengths.value.0, lengths.value.1, parse);
    if metadata.None? {
      return None;
    }
    return Some(Chunk(metadata.value, body));
  }

  /** The reader consumes exactly what the writer produced: a chunk written
      from serialised metadata `text` and a body is read back as the parsed
      metadata and the same body, and the stream then stands just past it. */
  lemma ReadWhatWasWritten(s: string, i: nat, text: string, body: string, rest: string, parse: string -> Option<Json>)
    requires i <= |s| && s[i..] == ChunkText(text, body) + rest
    ensures NextChunk(s, i, parse).1 == i + |ChunkText(text, body)|
    ensures parse(text).None? ==> NextChunk(s, i, parse).0 == None
    ensures parse(text).Some? ==> NextChunk(s, i, parse).0 == Some(Chunk(parse(text).value, body))
  {
    var h := Header(|text|, |body|);
    var n := |ChunkText(text, body)|;
    assert s[i..i + |h|] == h by {
      assert s[i..i + |h|] == s[i..][..|h|];
      assert (ChunkText(text, body) + rest)[..|h|] == h;
    }
    HeaderIsOneLine(|text|, |body|, s, i);
    HeaderMatches(|text|, |body|);
    var p := i + |h|;
    assert s[p..p + |text|] == text by {
      assert s[p..p + |text|] == s[i..][|h|..|h| + |text|];
      assert (ChunkText(text, body) + rest)[|h|..|h| + |text|] == text;
    }
    assert s[p + |text|..p + |text| + |body|] == body by {
      assert s[p + |text|..p + |text| + |body|] == s[i..][|h| + |text|..n];
      assert (ChunkText(text, body) + rest)[|h| + |text|..n] == body;
    }
  }

  /** End of input and a refused header both end the reading. */
  lemma NextChunkRefusals(s: string, i: nat, parse: string -> Option<Json>)
    requires i <= |s|
    ensures i == |s| ==> NextChunk(s, i, parse) == (None, i)
    ensures MatchHeader(LineAt(s, i)).None? ==> NextChunk(s, i, parse).0 == None
  {
  }

  // -------------------------------------------------------------- writing

  /** `SearchCommand._write_chunk(f, metadata, body)`. Truthy metadata is
      serialised and written after the header; otherwise the header announces
      an empty metadata segment and the following `f.write(None)` raises
      `TypeError`, after the header is already out. */
  method WriteChunk(f: OutputStream, metadata: Json, body: string, dumps: Json -> string) returns (o: Outcome)
    modifies f
    ensures Truthy(metadata) ==> o == Pass && f.text == old(f.text) + ChunkText(dumps(metadata), body)
    ensures !Truthy(metadata) ==> o == Fail(WriteNoneFault) && f.text == old(f.text) + Header(0, |body|)
  {
    if Truthy(metadata) {
      var buffer := dumps(metadata);
      f.Write(Header(|buffer|, |body|));
      f.Write(buffer);
      f.Write(body);
      return Pass;
    }
    f.Write(Header(0, |body|));
    return Fail(WriteNoneFault);
  }

  /** What `f.write(None)` raises. */
  const WriteNoneFault := TypeError("expected a character buffer object")
}
