/**
 What the PNG reader accepts, exactly: the files made of well-formed chunks.
 From that, decoding any such file gives back the image its scanlines were
 filtered from, and in particular decoding undoes encoding.
 */
module PngRoundTrip {
  import opened Bytes
  import opened Checksums
  import opened ScanlineFilter
  import opened Png

  // ------------------------------------------------------------------
  // One chunk.

  lemma DigitsOf(q: int, r: byte)
    ensures (q * 256 + r) / 256 == q && (q * 256 + r) % 256 == r
  {
  }

  lemma DivideTwice(v: nat)
    ensures v / 0x1_0000 == v / 0x100 / 0x100 && v / 0x100_0000 == v / 0x1_0000 / 0x100
  {
  }

  lemma JoinSplits(a: byte, b: byte, c: byte, d: byte)
    ensures Join(a, b, c, d) < 0x1_0000_0000
    ensures BigEndian(Join(a, b, c, d)) == [a, b, c, d]
  {
    DivideTwice(Join(a, b, c, d));
    DigitsOf(a, b);
    DigitsOf(a * 256 + b, c);
    DigitsOf(a * 0x1_0000 + b * 256 + c, d);
  }

  lemma ReadThenWrite(data: seq<byte>, at: nat)
    requires at + 4 <= |data|
    ensures BigEndian(ReadBigEndian(data, at)) == data[at..at + 4]
  {
    JoinSplits(data[at], data[at + 1], data[at + 2], data[at + 3]);
  }

  /** What the reader asks of one chunk. */
  predicate ReadableChunk(c: Chunk) { IsKind(c.kind) && |c.body| <= MAX_INT32 - 12 }

  lemma FiveParts(a: seq<byte>, b: seq<byte>, c: seq<byte>, d: seq<byte>, rest: seq<byte>)
    requires |a| == |b| == |d| == 4
    ensures var data := a + b + c + d + rest; var n := |c|;
            |data| == 12 + n + |rest| && data[..4] == a && data[4..8] == b && data[8..8 + n] == c
            && data[4..8 + n] == b + c && data[8 + n..12 + n] == d && data[12 + n..] == rest
  {
  }

  lemma FivePartsBack(data: seq<byte>, n: nat)
    requires |data| >= 12 + n
    ensures data == data[0..4] + data[4..8] + data[8..8 + n] + data[8 + n..8 + n + 4] + data[12 + n..]
    ensures data[4..8 + n] == data[4..8] + data[8..8 + n]
  {
  }

  lemma ReadSlice(data: seq<byte>, at: nat, v: Word32)
    requires at + 4 <= |data| && data[at..at + 4] == BigEndian(v)
    ensures ReadBigEndian(data, at) == v
  {
    BigEndianRoundTrip(v);
    var word := data[at..at + 4];
    assert word[0] == data[at] && word[1] == data[at + 1] && word[2] == data[at + 2] && word[3] == data[at + 3];
  }

  /** The reader takes a well-formed chunk off the front, whatever follows. */
  lemma ParseChunkBytes(c: Chunk, rest: seq<byte>, crc: Check)
    requires ReadableChunk(c)
    ensures ParseChunk(ChunkBytes(c, crc) + rest, crc) == Ok((c, rest))
  {
    var check := crc(c.kind + c.body);
    var data := ChunkBytes(c, crc) + rest;
    FiveParts(BigEndian(|c.body|), c.kind, c.body, BigEndian(check), rest);
    ReadSlice(data, 0, |c.body|);
    ReadSlice(data, 8 + |c.body|, check);
  }

  /** And it takes nothing else. */
  lemma ParsedChunkBytes(data: seq<byte>, crc: Check)
    requires ParseChunk(data, crc).Ok?
    ensures var (c, rest) := ParseChunk(data, crc).value; ReadableChunk(c) && data == ChunkBytes(c, crc) + rest
  {
    var length := ReadBigEndian(data, 0);
    ReadThenWrite(data, 0);
    ReadThenWrite(data, 8 + length);
    FivePartsBack(data, length);
  }

  // ------------------------------------------------------------------
  // All chunks.

  predicate AllReadable(chunks: seq<Chunk>) { forall c :: c in chunks ==> ReadableChunk(c) }

  function AllChunkBytes(chunks: seq<Chunk>, crc: Check): seq<byte>
    requires AllReadable(chunks)
  {
    if chunks == [] then []
    else
      assert ReadableChunk(chunks[0]);
      ChunkBytes(chunks[0], crc) + AllChunkBytes(chunks[1..], crc)
  }

  /** The data of the IDAT chunks, joined. */
  function ImageData(chunks: seq<Chunk>): seq<byte> {
    if chunks == [] then []
    else (if chunks[0].kind == IDAT then chunks[0].body else []) + ImageData(chunks[1..])
  }

  predicate GoodSize(width: int, height: int) {
    1 <= width <= MAX_DIMENSION && 1 <= height <= MAX_DIMENSION
  }

  predicate IsHeader(c: Chunk, width: nat, height: nat) {
    GoodSize(width, height) && c.kind == IHDR && c.body == HeaderBody(width, height)
  }

  predicate IsEnd(c: Chunk) { c.kind == IEND && c.body == [] }

  predicate IsBetween(c: Chunk) { ReadableChunk(c) && c.kind != IHDR && c.kind != IEND }

  /** Any chunks but header and end, then the end. */
  predicate IsBody(chunks: seq<Chunk>) {
    chunks != [] && (if |chunks| == 1 then IsEnd(chunks[0]) else IsBetween(chunks[0]) && IsBody(chunks[1..]))
  }

  predicate IsPng(chunks: seq<Chunk>, width: nat, height: nat) {
    chunks != [] && IsHeader(chunks[0], width, height) && IsBody(chunks[1..])
  }

  lemma {:induction false} BodyReadable(chunks: seq<Chunk>)
    requires IsBody(chunks)
    ensures AllReadable(chunks)
  {
    if |chunks| > 1 {
      BodyReadable(chunks[1..]);
      assert chunks == [chunks[0]] + chunks[1..];
    } else {
      assert chunks == [chunks[0]];
    }
  }

  lemma ReadsOne(data: seq<byte>, p: Progress, c: Chunk, rest: seq<byte>, crc: Check)
    requires !p.ended && ParseChunk(data, crc) == Ok((c, rest)) && Accept(p, c).Ok?
    ensures ReadChunks(data, p, crc) == ReadChunks(rest, Accept(p, c).value, crc)
  {
  }

  lemma ReadsChunk(c: Chunk, rest: seq<byte>, p: Progress, crc: Check)
    requires ReadableChunk(c) && !p.ended && Accept(p, c).Ok?
    ensures ReadChunks(ChunkBytes(c, crc) + rest, p, crc) == ReadChunks(rest, Accept(p, c).value, crc)
  {
    ParseChunkBytes(c, rest, crc);
    ReadsOne(ChunkBytes(c, crc) + rest, p, c, rest, crc);
  }

  function After(p: Progress, chunks: seq<Chunk>): Progress { p.(ended := true, zlib := p.zlib + ImageData(chunks)) }

  lemma AfterFirst(p: Progress, c: Chunk, chunks: seq<Chunk>)
    requires p.headerSeen && chunks != [] && IsBetween(chunks[0])
    ensures Accept(p, chunks[0]).Ok? && After(p, chunks) == After(Accept(p, chunks[0]).value, chunks[1..])
  {
    var c, rest := chunks[0], chunks[1..];
    assert p.zlib + c.body + ImageData(rest) == p.zlib + (c.body + ImageData(rest));
    assert [] + ImageData(rest) == ImageData(rest);
  }

  lemma NothingLeft(p: Progress, crc: Check)
    requires p.ended
    ensures ReadChunks([], p, crc) == Ok(p)
  {
  }

  lemma AcceptsEnd(p: Progress, c: Chunk)
    requires p.headerSeen && IsEnd(c)
    ensures Accept(p, c) == Ok(p.(ended := true))
  {
  }

  lemma ReadsEnd(chunks: seq<Chunk>, p: Progress, crc: Check)
    requires p.headerSeen && !p.ended && |chunks| == 1 && IsEnd(chunks[0]) && AllReadable(chunks)
    ensures ReadChunks(AllChunkBytes(chunks, crc), p, crc) == Ok(After(p, chunks))
  {
    var c, none := chunks[0], chunks[1..];
    AcceptsEnd(p, c);
    NothingLeft(p.(ended := true), crc);
    assert AllChunkBytes(none, crc) == [] && ImageData(none) == [];
    ReadsChunk(c, AllChunkBytes(none, crc), p, crc);
    assert p.zlib + ImageData(chunks) == p.zlib;
  }

  /** Past the header, the reader accepts any chunks followed by the end chunk. */
  lemma {:induction false} ReadsBody(chunks: seq<Chunk>, p: Progress, crc: Check)
    requires IsBody(chunks) && AllReadable(chunks) && p.headerSeen && !p.ended
    ensures ReadChunks(AllChunkBytes(chunks, crc), p, crc) == Ok(After(p, chunks))
    decreases |chunks|
  {
    if |chunks| == 1 {
      ReadsEnd(chunks, p, crc);
    } else {
      var c, rest := chunks[0], chunks[1..];
      AfterFirst(p, c, chunks);
      BodyReadable(rest);
      ReadsChunk(c, AllChunkBytes(rest, crc), p, crc);
      ReadsBody(rest, Accept(p, c).value, crc);
    }
  }

  lemma ReadStep(data: seq<byte>, p: Progress, crc: Check)
    requires !p.ended && ReadChunks(data, p, crc).Ok?
    ensures ParseChunk(data, crc).Ok?
    ensures var (c, rest) := ParseChunk(data, crc).value;
            ReadableChunk(c) && data == ChunkBytes(c, crc) + rest
            && Accept(p, c).Ok? && ReadChunks(rest, Accept(p, c).value, crc).Ok?
  {
    ParsedChunkBytes(data, crc);
  }

  lemma NothingAfterEnd(data: seq<byte>, p: Progress, crc: Check)
    requires p.ended && ReadChunks(data, p, crc).Ok?
    ensures data == []
  {
  }

  lemma FirstOf(c: Chunk, more: seq<Chunk>, crc: Check)
    requires ReadableChunk(c) && AllReadable(more)
    ensures AllReadable([c] + more) && ([c] + more)[1..] == more
    ensures AllChunkBytes([c] + more, crc) == ChunkBytes(c, crc) + AllChunkBytes(more, crc)
  {
    var chunks := [c] + more;
    assert chunks[1..] == more;
    assert AllReadable(chunks);
  }

  /** And past the header it accepts nothing else. */
  lemma {:induction false} BodyRead(data: seq<byte>, p: Progress, crc: Check) returns (chunks: seq<Chunk>)
    requires p.headerSeen && !p.ended && ReadChunks(data, p, crc).Ok?
    ensures IsBody(chunks) && AllReadable(chunks) && data == AllChunkBytes(chunks, crc)
    decreases |data|
  {
    ReadStep(data, p, crc);
    var (c, rest) := ParseChunk(data, crc).value;
    var more := [];
    if c.kind == IEND {
      NothingAfterEnd(rest, Accept(p, c).value, crc);
    } else {
      more := BodyRead(rest, Accept(p, c).value, crc);
    }
    chunks := [c] + more;
    FirstOf(c, more, crc);
  }

  lemma HeaderParts(width: nat, height: nat)
    requires GoodSize(width, height)
    ensures var body := HeaderBody(width, height);
            |body| == 13 && ReadBigEndian(body, 0) == width && ReadBigEndian(body, 4) == height
            && body[8..] == [8, 6, 0, 0, 0]
  {
    var body := HeaderBody(width, height);
    ReadSlice(body, 0, width);
    ReadSlice(body, 4, height);
  }

  function Started(width: nat, height: nat): Progress { START.(headerSeen := true, width := width, height := height) }

  lemma HeaderAccepted(width: nat, height: nat)
    requires GoodSize(width, height)
    ensures AcceptHeader(START, HeaderBody(width, height)) == Ok(Started(width, height))
  {
    HeaderParts(width, height);
    var body := HeaderBody(width, height);
    assert body[8] == body[8..][0] && body[9] == body[8..][1] && body[10] == body[8..][2]
        && body[11] == body[8..][3] && body[12] == body[8..][4];
  }

  lemma AcceptedHeader(body: seq<byte>)
    requires AcceptHeader(START, body).Ok?
    ensures var p := AcceptHeader(START, body).value;
            GoodSize(p.width, p.height) && body == HeaderBody(p.width, p.height)
            && p == Started(p.width, p.height)
  {
    ReadThenWrite(body, 0);
    ReadThenWrite(body, 4);
    assert body == body[0..4] + body[4..8] + body[8..];
    assert body[8..] == [8, 6, 0, 0, 0];
  }

  lemma ReadsFile(chunks: seq<Chunk>, width: nat, height: nat, crc: Check)
    requires IsPng(chunks, width, height) && AllReadable(chunks)
    ensures ReadChunks(AllChunkBytes(chunks, crc), START, crc)
            == Ok(Progress(true, width, height, true, ImageData(chunks)))
  {
    var header, body := chunks[0], chunks[1..];
    HeaderAccepted(width, height);
    BodyReadable(body);
    ReadsChunk(header, AllChunkBytes(body, crc), START, crc);
    ReadsBody(body, Started(width, height), crc);
    assert [] + ImageData(body) == ImageData(body) && ImageData(chunks) == [] + ImageData(body);
  }

  lemma FileRead(data: seq<byte>, crc: Check) returns (width: nat, height: nat, chunks: seq<Chunk>)
    requires ReadChunks(data, START, crc).Ok?
    ensures IsPng(chunks, width, height) && AllReadable(chunks) && data == AllChunkBytes(chunks, crc)
  {
    ReadStep(data, START, crc);
    var (c, rest) := ParseChunk(data, crc).value;
    AcceptedHeader(c.body);
    var p := AcceptHeader(START, c.body).value;
    width, height := p.width, p.height;
    var body := BodyRead(rest, p, crc);
    chunks := [c] + body;
    FirstOf(c, body, crc);
  }

  function PngBytes(chunks: seq<Chunk>, crc: Check): seq<byte>
    requires AllReadable(chunks)
  {
    SIGNATURE + AllChunkBytes(chunks, crc)
  }

  // ------------------------------------------------------------------
  // The pixel stream.

  /** A zlib header the reader accepts: deflate, no preset dictionary, check bits. */
  predicate GoodZlibHeader(head: seq<byte>) {
    |head| == 2 && head[0] % 16 == 8 && head[1] / 32 % 2 == 0 && Join(0, 0, head[0], head[1]) % 31 == 0
  }

  function Zlib(head: seq<byte>, payload: seq<byte>, raw: seq<byte>): seq<byte> {
    AdlerBelow(raw);
    head + payload + BigEndian(Adler(raw))
  }

  /** The pixel stream is accepted exactly when it is a zlib stream whose
      payload inflates to `height` scanlines of `width` pixels. */
  ghost predicate CarriesScanlines(zlib: seq<byte>, width: nat, height: nat, raw: seq<byte>, inflate: Inflate) {
    exists head, payload ::
      GoodZlibHeader(head) && zlib == Zlib(head, payload, raw) && inflate(payload) == Some(raw)
      && |raw| == Size(height, width * 4 + 1)
  }

  lemma ZlibParts(head: seq<byte>, payload: seq<byte>, raw: seq<byte>)
    requires |head| == 2
    ensures var zlib := Zlib(head, payload, raw);
            |zlib| == |payload| + 6 && zlib[0] == head[0] && zlib[1] == head[1] && zlib[2..|zlib| - 4] == payload
            && ReadBigEndian(zlib, |zlib| - 4) == Adler(raw)
  {
    AdlerBelow(raw);
    ReadSlice(Zlib(head, payload, raw), |head + payload|, Adler(raw));
  }

  lemma PixelsDecoded(zlib: seq<byte>, width: nat, height: nat, raw: seq<byte>, inflate: Inflate)
    requires CarriesScanlines(zlib, width, height, raw, inflate)
    ensures DecodePixels(width, height, zlib, inflate)
         == match Unfilter(raw, width * 4, ZeroRow(width * 4))
            case Ok(pixels) => Ok(pixels)
            case Err(_) => Err(BadFilter)
  {
    var head, payload :| GoodZlibHeader(head) && zlib == Zlib(head, payload, raw) && inflate(payload) == Some(raw);
    ZlibParts(head, payload, raw);
  }

  lemma DecodedPixels(zlib: seq<byte>, width: nat, height: nat, inflate: Inflate) returns (raw: seq<byte>)
    requires DecodePixels(width, height, zlib, inflate).Ok?
    ensures CarriesScanlines(zlib, width, height, raw, inflate)
  {
    var head, payload := zlib[..2], zlib[2..|zlib| - 4];
    raw := inflate(payload).value;
    ReadThenWrite(zlib, |zlib| - 4);
    assert zlib == head + payload + zlib[|zlib| - 4..];
    assert zlib[|zlib| - 4..] == BigEndian(Adler(raw));
    assert GoodZlibHeader(head) && zlib == Zlib(head, payload, raw) && inflate(payload) == Some(raw);
  }

  // ------------------------------------------------------------------
  // Whole files.

  /** The scanlines of `image` with the given filters are what the image data carries. */
  ghost predicate Carries(chunks: seq<Chunk>, filters: seq<byte>, image: Image, inflate: Inflate) {
    |filters| == image.height && Supported(filters) && |image.pixels| == Size(image.height, image.width * 4)
    && CarriesScanlines(ImageData(chunks), image.width, image.height,
                        Filter(image.pixels, filters, image.width * 4, ZeroRow(image.width * 4)), inflate)
  }

  /** `data` is a PNG file of `image`. */
  ghost predicate Shows(data: seq<byte>, image: Image, inflate: Inflate, crc: Check) {
    exists chunks, filters ::
      IsPng(chunks, image.width, image.height) && AllReadable(chunks) && data == PngBytes(chunks, crc)
      && Carries(chunks, filters, image, inflate)
  }

  lemma CarriedPixels(chunks: seq<Chunk>, filters: seq<byte>, image: Image, inflate: Inflate)
    requires Carries(chunks, filters, image, inflate)
    ensures DecodePixels(image.width, image.height, ImageData(chunks), inflate) == Ok(image.pixels)
  {
    var stride := image.width * 4;
    UnfilterUndoesFilter(image.pixels, filters, stride, ZeroRow(stride));
    PixelsDecoded(ImageData(chunks), image.width, image.height,
                  Filter(image.pixels, filters, stride, ZeroRow(stride)), inflate);
  }

  lemma PixelsCarried(chunks: seq<Chunk>, width: nat, height: nat, inflate: Inflate) returns (filters: seq<byte>)
    requires DecodePixels(width, height, ImageData(chunks), inflate).Ok?
    ensures var pixels := DecodePixels(width, height, ImageData(chunks), inflate).value;
            Carries(chunks, filters, Image(width, height, pixels), inflate)
  {
    var stride := width * 4;
    var raw := DecodedPixels(ImageData(chunks), width, height, inflate);
    PixelsDecoded(ImageData(chunks), width, height, raw, inflate);
    FilterUndoesUnfilter(raw, height, stride, ZeroRow(stride));
    filters := FilterBytes(raw, stride);
  }

  lemma {:induction false} BodyLength(chunks: seq<Chunk>, crc: Check)
    requires IsBody(chunks) && AllReadable(chunks)
    ensures |AllChunkBytes(chunks, crc)| >= 12
  {
    assert |AllChunkBytes(chunks, crc)| >= |ChunkBytes(chunks[0], crc)|;
  }

  /** Every file of an image decodes to that image: however the compressor
      worked, however the data was cut into IDAT chunks, whatever other chunks
      lie between header and end, whichever filter each row uses. */
  lemma DecodesWhatItShows(chunks: seq<Chunk>, filters: seq<byte>, image: Image, inflate: Inflate, crc: Check)
    requires IsPng(chunks, image.width, image.height) && AllReadable(chunks) && Carries(chunks, filters, image, inflate)
    ensures Decode(PngBytes(chunks, crc), inflate, crc) == Ok(image)
  {
    var data := PngBytes(chunks, crc);
    ReadsFile(chunks, image.width, image.height, crc);
    BodyLength(chunks[1..], crc);
    assert data[..8] == SIGNATURE && data[8..] == AllChunkBytes(chunks, crc);
    CarriedPixels(chunks, filters, image, inflate);
  }

  lemma DecodeParts(data: seq<byte>, inflate: Inflate, crc: Check)
    requires Decode(data, inflate, crc).Ok?
    ensures var image := Decode(data, inflate, crc).value; var body := data[8..]; var p := ReadChunks(body, START, crc);
            data == SIGNATURE + body && p.Ok?
            && p.value.width == image.width && p.value.height == image.height
            && DecodePixels(image.width, image.height, p.value.zlib, inflate) == Ok(image.pixels)
  {
    assert data == data[..8] + data[8..];
  }

  /** And every file that decodes is a file of the image it decodes to. */
  lemma ShowsWhatItDecodes(data: seq<byte>, inflate: Inflate, crc: Check)
    requires Decode(data, inflate, crc).Ok?
    ensures Shows(data, Decode(data, inflate, crc).value, inflate, crc)
  {
    var image := Decode(data, inflate, crc).value;
    DecodeParts(data, inflate, crc);
    var width, height, chunks := FileRead(data[8..], crc);
    ReadsFile(chunks, width, height, crc);
    var filters := PixelsCarried(chunks, width, height, inflate);
    assert data == PngBytes(chunks, crc) && Carries(chunks, filters, image, inflate);
  }

  /** Decoding accepts exactly the files that show an image, and returns the
      image they show. */
  lemma DecodeExactly(data: seq<byte>, image: Image, inflate: Inflate, crc: Check)
    ensures Decode(data, inflate, crc) == Ok(image) <==> Shows(data, image, inflate, crc)
  {
    if Shows(data, image, inflate, crc) {
      var chunks, filters :| IsPng(chunks, image.width, image.height) && AllReadable(chunks)
        && data == PngBytes(chunks, crc) && Carries(chunks, filters, image, inflate);
      DecodesWhatItShows(chunks, filters, image, inflate, crc);
    }
    if Decode(data, inflate, crc) == Ok(image) { ShowsWhatItDecodes(data, inflate, crc); }
  }
}
