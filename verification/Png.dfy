/**
 The PNG file around a canvas: chunks (section 5.3 of the W3C PNG specification) and scanlines with filter
 type 0 (section 9.2). The checksum and the compression are arbitrary functions.
 */
module Png {
  import opened Common
  import opened Canvas

  type Bytes = seq<byte>

  // ---------------------------------------------------------------------------------------------
  // Big-endian numbers
  // ---------------------------------------------------------------------------------------------

  const WORD := 0x1_0000_0000

  function Pow256(n: nat): nat
    ensures Pow256(n) > 0
  {
    if n == 0 then 1 else 256 * Pow256(n - 1)
  }

  /** A number in `width` bytes, the most significant first. */
  function BigEndian(value: nat, width: nat): (bytes: Bytes)
    ensures |bytes| == width
  {
    if width == 0 then [] else BigEndian(value / 256, width - 1) + [(value % 256) as byte]
  }

  function Value(bytes: Bytes): nat
  {
    if bytes == [] then 0 else Value(bytes[..|bytes| - 1]) * 256 + bytes[|bytes| - 1] as int
  }

  lemma {:induction false} BigEndianReads(value: nat, width: nat)
    requires value < Pow256(width)
    ensures Value(BigEndian(value, width)) == value
  {
    if width > 0 {
      BigEndianReads(value / 256, width - 1);
      var bytes := BigEndian(value, width);
      assert bytes[..width - 1] == BigEndian(value / 256, width - 1);
    }
  }

  lemma WordReads(value: nat)
    requires value < WORD
    ensures Value(BigEndian(value, 4)) == value
  {
    assert Pow256(4) == 256 * Pow256(3) == 256 * (256 * Pow256(2)) == 256 * (256 * (256 * Pow256(1))) == WORD;
    BigEndianReads(value, 4);
  }

  /** A number below 2 to the 32nd in four bytes. */
  function FourBytes(n: nat): Bytes
    requires n < 0x1_0000_0000
  {
    [(n / 0x100_0000) as byte, (n / 0x1_0000 % 256) as byte, (n / 256 % 256) as byte, (n % 256) as byte]
  }

  lemma WordIs(n: nat)
    requires n < WORD
    ensures BigEndian(n, 4) == FourBytes(n)
  {
    var a, b := n / 256, n / 256 / 256;
    assert BigEndian(n, 4) == BigEndian(a, 3) + [(n % 256) as byte];
    assert BigEndian(a, 3) == BigEndian(b, 2) + [(a % 256) as byte];
    assert BigEndian(b, 2) == BigEndian(b / 256, 1) + [(b % 256) as byte];
    assert BigEndian(b / 256, 1) == [] + [(b / 256 % 256) as byte];
    assert b == n / 0x1_0000 && b / 256 == n / 0x100_0000;
  }

  // ---------------------------------------------------------------------------------------------
  // Chunks
  // ---------------------------------------------------------------------------------------------

  /** A chunk: the payload's length, the kind, the payload, and a checksum over kind and payload. */
  function Chunk(kind: Bytes, payload: Bytes, crc: Bytes -> nat): Bytes
  {
    BigEndian(|payload|, 4) + (kind + (payload + BigEndian(crc(kind + payload) % WORD, 4)))
  }

  datatype ChunkRead = ChunkRead(kind: Bytes, payload: Bytes, rest: Bytes)

  /** Reading a chunk, with its checksum verified. */
  function ReadChunk(bytes: Bytes, crc: Bytes -> nat): Option<ChunkRead>
  {
    if |bytes| < 12 then None
    else
      var length := Value(bytes[..4]);
      if |bytes| < 12 + length then None
      else
        var kind, payload := bytes[4..8], bytes[8..8 + length];
        if Value(bytes[8 + length..12 + length]) != crc(kind + payload) % WORD then None
        else Some(ChunkRead(kind, payload, bytes[12 + length..]))
  }

  lemma FourParts(a: Bytes, b: Bytes, c: Bytes, d: Bytes, rest: Bytes)
    requires |a| == 4 && |b| == 4 && |d| == 4
    ensures var all, n := (a + (b + (c + d))) + rest, |c|;
            && |all| == 12 + n + |rest|
            && all[..4] == a && all[4..8] == b && all[8..8 + n] == c
            && all[8 + n..12 + n] == d && all[12 + n..] == rest
  {
    var all, n := (a + (b + (c + d))) + rest, |c|;
    assert all[..4] == a;
    assert all[4..8] == b;
    assert all[8..8 + n] == c;
    assert all[8 + n..12 + n] == d;
    assert all[12 + n..] == rest;
  }

  /** A chunk is read back, whatever follows it. */
  lemma ChunkReads(kind: Bytes, payload: Bytes, crc: Bytes -> nat, rest: Bytes)
    requires |kind| == 4 && |payload| < WORD
    ensures ReadChunk(Chunk(kind, payload, crc) + rest, crc) == Some(ChunkRead(kind, payload, rest))
  {
    hide BigEndian, Value;
    var length, sum := BigEndian(|payload|, 4), BigEndian(crc(kind + payload) % WORD, 4);
    WordReads(|payload|);
    WordReads(crc(kind + payload) % WORD);
    FourParts(length, kind, payload, sum, rest);
  }

  // ---------------------------------------------------------------------------------------------
  // Scanlines
  // ---------------------------------------------------------------------------------------------

  /** The pixels of `rows` rows, each behind its filter byte. */
  function Framed(pixels: Bytes, rows: nat): Bytes
    requires |pixels| == rows * STRIDE
  {
    if rows == 0 then [] else [0] + pixels[..STRIDE] + Framed(pixels[STRIDE..], rows - 1)
  }

  /** Scanlines without their filter bytes; none if a filter byte is not 0 or a line is not whole. */
  function Unframed(raw: Bytes, rows: nat): Option<Bytes>
  {
    if rows == 0 then if raw == [] then Some([]) else None
    else if |raw| < STRIDE + 1 || raw[0] != 0 then None
    else
      var rest := Unframed(raw[STRIDE + 1..], rows - 1);
      if rest.None? then None else Some(raw[1..STRIDE + 1] + rest.value)
  }

  /** Taking the filter byte off each scanline restores the pixels. */
  lemma {:induction false} FramedReads(pixels: Bytes, rows: nat)
    requires |pixels| == rows * STRIDE
    ensures Unframed(Framed(pixels, rows), rows) == Some(pixels)
    ensures |Framed(pixels, rows)| == rows * (STRIDE + 1)
  {
    if rows > 0 {
      FramedReads(pixels[STRIDE..], rows - 1);
      var rest := Framed(pixels[STRIDE..], rows - 1);
      var raw := [0] + pixels[..STRIDE] + rest;
      assert raw[STRIDE + 1..] == rest && raw[1..STRIDE + 1] == pixels[..STRIDE];
      assert pixels == pixels[..STRIDE] + pixels[STRIDE..];
    }
  }

  lemma SliceBehind(a: Bytes, b: Bytes, i: nat, j: nat)
    requires i <= j <= |b|
    ensures (a + b)[|a| + i..|a| + j] == b[i..j]
  {
  }

  /** Line `row` is a zero byte and then its pixels. */
  ghost predicate LineFramed(pixels: Bytes, raw: Bytes, row: nat)
  {
    && row * 2881 + 2881 <= |raw| && row * 2880 + 2880 <= |pixels|
    && raw[row * 2881..row * 2881 + 2881] == [0] + pixels[row * 2880..row * 2880 + 2880]
  }

  lemma FirstFramed(pixels: Bytes, rest: Bytes)
    requires |pixels| >= STRIDE
    ensures LineFramed(pixels, ([0] + pixels[..STRIDE]) + rest, 0)
  {
    var first := [0] + pixels[..STRIDE];
    assert (first + rest)[0..2881] == first;
  }

  lemma LaterFramed(pixels: Bytes, rest: Bytes, row: nat)
    requires |pixels| >= STRIDE && LineFramed(pixels[STRIDE..], rest, row)
    ensures LineFramed(pixels, ([0] + pixels[..STRIDE]) + rest, row + 1)
  {
    SliceBehind([0] + pixels[..STRIDE], rest, row * 2881, row * 2881 + 2881);
    SliceBehind(pixels[..STRIDE], pixels[STRIDE..], row * 2880, row * 2880 + 2880);
    assert pixels == pixels[..STRIDE] + pixels[STRIDE..];
  }

  lemma {:induction false} FramedAt(pixels: Bytes, rows: nat, row: nat)
    requires |pixels| == rows * STRIDE && row < rows
    ensures LineFramed(pixels, Framed(pixels, rows), row)
  {
    hide LineFramed;
    var rest := Framed(pixels[STRIDE..], rows - 1);
    if row == 0 {
      FirstFramed(pixels, rest);
    } else {
      FramedAt(pixels[STRIDE..], rows - 1, row - 1);
      LaterFramed(pixels, rest, row - 1);
    }
  }

  /** There are 540 lines, each a zero byte and its pixels, and nothing else. */
  ghost predicate AllFramed(pixels: Bytes, raw: Bytes)
  {
    |raw| == 540 * 2881 && forall row {:trigger LineFramed(pixels, raw, row)} :: 0 <= row < 540 ==> LineFramed(pixels, raw, row)
  }

  lemma FramedIsAll(pixels: Bytes)
    requires |pixels| == SIZE
    ensures AllFramed(pixels, Framed(pixels, HEIGHT))
  {
    hide LineFramed, Framed;
    FramedReads(pixels, HEIGHT);
    forall row | 0 <= row < 540 ensures LineFramed(pixels, Framed(pixels, HEIGHT), row) {
      FramedAt(pixels, HEIGHT, row);
    }
  }

  /** The encoder's framing: one scanline after another, from offset to offset. */
  method FrameScanlines(pixels: Bytes) returns (raw: Bytes)
    requires |pixels| == SIZE
    ensures raw == Framed(pixels, HEIGHT)
    ensures AllFramed(pixels, raw)
  {
    hide AllFramed;
    FramedIsAll(pixels);
    raw := [];
    var offset, left := 0, HEIGHT;
    assert pixels[0..] == pixels;
    while offset < |pixels|
      invariant left >= 0 && offset + left * STRIDE == SIZE
      invariant raw + Framed(pixels[offset..], left) == Framed(pixels, HEIGHT)
    {
      var rest := pixels[offset..];
      assert rest[..STRIDE] == pixels[offset..offset + STRIDE] && rest[STRIDE..] == pixels[offset + STRIDE..];
      Associated(raw, [0] + rest[..STRIDE], Framed(rest[STRIDE..], left - 1));
      raw := raw + ([0] + pixels[offset..offset + STRIDE]);
      offset, left := offset + STRIDE, left - 1;
    }
    assert raw + [] == raw;
  }

  // ---------------------------------------------------------------------------------------------
  // The file
  // ---------------------------------------------------------------------------------------------

  function Signature(): Bytes { [0x89, 0x50, 0x4e, 0x47, 0x0d, 0x0a, 0x1a, 0x0a] }
  function HeaderKind(): Bytes { [0x49, 0x48, 0x44, 0x52] }
  function DataKind(): Bytes { [0x49, 0x44, 0x41, 0x54] }
  function EndKind(): Bytes { [0x49, 0x45, 0x4e, 0x44] }

  /** Width and height, eight bits a sample, red, green and blue, and no variants. */
  function Header(): Bytes
  {
    BigEndian(WIDTH, 4) + BigEndian(HEIGHT, 4) + [8, 2, 0, 0, 0]
  }

  function Encoded(pixels: Bytes, crc: Bytes -> nat, compress: Bytes -> Bytes): Bytes
    requires |pixels| == SIZE
  {
    Signature()
    + (Chunk(HeaderKind(), Header(), crc)
       + (Chunk(DataKind(), compress(Framed(pixels, HEIGHT)), crc) + (Chunk(EndKind(), [], crc) + [])))
  }

  /** A chunk, byte by byte. */
  function Spelled(kind: Bytes, payload: Bytes, crc: Bytes -> nat): Bytes
    requires |payload| < 0x1_0000_0000
  {
    FourBytes(|payload|) + kind + payload + FourBytes(crc(kind + payload) % 0x1_0000_0000)
  }

  lemma ChunkSpelled(kind: Bytes, payload: Bytes, crc: Bytes -> nat)
    requires |payload| < WORD
    ensures Chunk(kind, payload, crc) == Spelled(kind, payload, crc)
  {
    hide BigEndian, FourBytes;
    WordIs(|payload|);
    WordIs(crc(kind + payload) % WORD);
  }

  lemma SizeSpelled()
    ensures FourBytes(960) == [0, 0, 3, 192] && FourBytes(540) == [0, 0, 2, 28]
  {
  }

  lemma HeaderSpelled()
    ensures Header() == [0, 0, 3, 192, 0, 0, 2, 28, 8, 2, 0, 0, 0]
  {
    hide BigEndian, FourBytes;
    WordIs(WIDTH);
    WordIs(HEIGHT);
    SizeSpelled();
  }

  lemma KindsSpelled()
    ensures Signature() == [137, 80, 78, 71, 13, 10, 26, 10] && HeaderKind() == [73, 72, 68, 82]
    ensures DataKind() == [73, 68, 65, 84] && EndKind() == [73, 69, 78, 68]
  {
  }

  /** The file, byte by byte: the signature, and the chunks IHDR, IDAT and IEND. */
  function SpelledFile(data: Bytes, crc: Bytes -> nat): Bytes
    requires |data| < 0x1_0000_0000
  {
    [137, 80, 78, 71, 13, 10, 26, 10]
    + Spelled([73, 72, 68, 82], [0, 0, 3, 192, 0, 0, 2, 28, 8, 2, 0, 0, 0], crc)
    + Spelled([73, 68, 65, 84], data, crc)
    + Spelled([73, 69, 78, 68], [], crc)
  }

  lemma EncodedSpelled(pixels: Bytes, crc: Bytes -> nat, compress: Bytes -> Bytes)
    requires |pixels| == SIZE && |compress(Framed(pixels, HEIGHT))| < WORD
    ensures Encoded(pixels, crc, compress) == SpelledFile(compress(Framed(pixels, HEIGHT)), crc)
  {
    hide Framed, Chunk, Spelled, Signature, HeaderKind, DataKind, EndKind, Header;
    HeaderSpelled();
    KindsSpelled();
    KindsAndHeader();
    ChunkSpelled(HeaderKind(), Header(), crc);
    ChunkSpelled(DataKind(), compress(Framed(pixels, HEIGHT)), crc);
    ChunkSpelled(EndKind(), [], crc);
  }

  /** A chunk of the expected kind. */
  function Expect(bytes: Bytes, kind: Bytes, crc: Bytes -> nat): Option<ChunkRead>
  {
    var chunk := ReadChunk(bytes, crc);
    if chunk.None? || chunk.value.kind != kind then None else chunk
  }

  /** What a reader of such files sees: the signature, the header, the data and the end, and nothing else. */
  function Decoded(file: Bytes, crc: Bytes -> nat, decompress: Bytes -> Bytes): Option<Bytes>
  {
    if !(Signature() <= file) then None
    else
      var header := Expect(file[|Signature()|..], HeaderKind(), crc);
      if header.None? || header.value.payload != Header() then None
      else
        var data := Expect(header.value.rest, DataKind(), crc);
        if data.None? then None
        else
          var end := Expect(data.value.rest, EndKind(), crc);
          if end.None? || end.value.payload != [] || end.value.rest != [] then None
          else Unframed(decompress(data.value.payload), HEIGHT)
  }

  lemma ExpectReads(kind: Bytes, payload: Bytes, crc: Bytes -> nat, rest: Bytes)
    requires |kind| == 4 && |payload| < WORD
    ensures Expect(Chunk(kind, payload, crc) + rest, kind, crc) == Some(ChunkRead(kind, payload, rest))
  {
    hide ReadChunk, Chunk;
    ChunkReads(kind, payload, crc, rest);
  }

  /** The compressed scanlines fit a chunk, and decompressing restores them. */
  predicate Undone(pixels: Bytes, compress: Bytes -> Bytes, decompress: Bytes -> Bytes)
    requires |pixels| == SIZE
  {
    var raw := Framed(pixels, HEIGHT);
    decompress(compress(raw)) == raw && |compress(raw)| < WORD
  }

  /** Reading the file gives the pixels back, for any checksum and any compression that is undone and fits a chunk. */
  lemma FileReads(pixels: Bytes, crc: Bytes -> nat, compress: Bytes -> Bytes, decompress: Bytes -> Bytes)
    requires |pixels| == SIZE
    requires Undone(pixels, compress, decompress)
    ensures Decoded(Encoded(pixels, crc, compress), crc, decompress) == Some(pixels)
  {
    hide Framed, Unframed, Chunk, Expect, Header, BigEndian, Signature, HeaderKind, DataKind, EndKind;
    KindsAndHeader();
    var raw := Framed(pixels, HEIGHT);
    FramedReads(pixels, HEIGHT);
    var end := Chunk(EndKind(), [], crc) + [];
    var data := Chunk(DataKind(), compress(raw), crc) + end;
    var header := Chunk(HeaderKind(), Header(), crc) + data;
    ExpectReads(EndKind(), [], crc, []);
    ExpectReads(DataKind(), compress(raw), crc, end);
    ExpectReads(HeaderKind(), Header(), crc, data);
    assert (Signature() + header)[|Signature()|..] == header;
  }

  lemma KindsAndHeader()
    ensures |HeaderKind()| == 4 && |DataKind()| == 4 && |EndKind()| == 4 && |Header()| == 13
  {
  }

  /** A canvas as a file: reading it gives the canvas back, whatever undoes the compression. */
  method EncodePng(canvas: Canvas, crc: Bytes -> nat, compress: Bytes -> Bytes) returns (file: Bytes)
    requires canvas.pixels.Length == SIZE
    ensures file == Encoded(canvas.pixels[..], crc, compress)
    ensures forall decompress {:trigger Decoded(file, crc, decompress)} ::
              Undone(canvas.pixels[..], compress, decompress)
              ==> Decoded(file, crc, decompress) == Some(canvas.pixels[..])
    ensures exists raw :: AllFramed(canvas.pixels[..], raw)
                       && (|compress(raw)| < 0x1_0000_0000 ==> file == SpelledFile(compress(raw), crc))
  {
    hide AllFramed, SpelledFile, Framed, Chunk, Header, Signature, HeaderKind, DataKind, EndKind, Decoded;
    var raw := FrameScanlines(canvas.pixels[..]);
    file := Signature()
      + (Chunk(HeaderKind(), Header(), crc) + (Chunk(DataKind(), compress(raw), crc) + (Chunk(EndKind(), [], crc) + [])));
    if |compress(raw)| < WORD {
      EncodedSpelled(canvas.pixels[..], crc, compress);
    }
    forall decompress | Undone(canvas.pixels[..], compress, decompress)
      ensures Decoded(file, crc, decompress) == Some(canvas.pixels[..])
    {
      FileReads(canvas.pixels[..], crc, compress, decompress);
    }
  }
}
