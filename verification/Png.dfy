/**
 The PNG subset of the asset generator: 8-bit RGBA, not interlaced. Chunk layout
 as in section 3.2 of RFC 2083, zlib framing as in section 2.2 of RFC 1950,
 stored deflate blocks as in section 3.2.4 of RFC 1951. Inflating is a parameter
 of which only the behaviour on stored blocks is ever assumed.
 */
module Png {
  import opened Bytes
  import opened Checksums
  import opened ScanlineFilter

  const SIGNATURE: seq<byte> := [137, 80, 78, 71, 13, 10, 26, 10]
  const IHDR: seq<byte> := [73, 72, 68, 82]
  const IDAT: seq<byte> := [73, 68, 65, 84]
  const IEND: seq<byte> := [73, 69, 78, 68]

  const MAX_INT32 := 0x7FFF_FFFF
  const MAX_DIMENSION := 16384
  const STORED_BLOCK_SIZE := 65535

  datatype DecodeError =
    | Truncated | BadSignature | BytesAfterEnd | ChunkTruncated | ChunkLength | ChunkType | ChunkCrc
    | NoHeader | BadHeader | BadDimensions | BadFormat | BadEnd | MissingEnd
    | ZlibTruncated | NotDeflate | PresetDictionary | ZlibHeader
    | CorruptDeflate | PixelsShort | PixelsLong | AdlerMismatch | BadFilter

  datatype Chunk = Chunk(kind: seq<byte>, body: seq<byte>)

  datatype Image = Image(width: nat, height: nat, pixels: seq<byte>)

  type Word32 = x: nat | x < 0x1_0000_0000

  /** Decompression of a raw deflate stream; None if it is corrupt. */
  type Inflate = seq<byte> -> Option<seq<byte>>

  /** A chunk check value; everything about the layout holds whatever it is. */
  type Check = seq<byte> -> Word32

  // ------------------------------------------------------------------
  // Big-endian numbers.

  function BigEndian(v: Word32): (bytes: seq<byte>)
    ensures |bytes| == 4
  {
    [v / 0x100_0000, v / 0x1_0000 % 256, v / 0x100 % 256, v % 256]
  }

  function ReadBigEndian(data: seq<byte>, offset: nat): Word32
    requires offset + 4 <= |data|
  {
    Join(data[offset], data[offset + 1], data[offset + 2], data[offset + 3])
  }

  function Join(a: int, b: int, c: int, d: int): int {
    a * 0x100_0000 + b * 0x1_0000 + c * 0x100 + d
  }

  /** An unsigned 32-bit number read as a signed one. */
  function AsInt32(v: Word32): int {
    if v > MAX_INT32 then v - 0x1_0000_0000 else v
  }

  lemma BigEndianRoundTrip(v: Word32)
    ensures ReadBigEndian(BigEndian(v), 0) == v
  {
    var a, b, c := v / 0x100, v / 0x1_0000, v / 0x100_0000;
    assert b == a / 256 && c == b / 256;
    assert v == a * 256 + v % 256 && a == b * 256 + a % 256 && b == c * 256 + b % 256;
  }

  lemma Pow2Of32()
    ensures Pow2(32) == 0x1_0000_0000
  {
    assert Pow2(6) == 64;
    assert Pow2(12) == 0x1000;
    assert Pow2(18) == 0x4_0000;
    assert Pow2(24) == 0x100_0000;
    assert Pow2(30) == 0x4000_0000;
  }

  lemma WordValue(w: Word)
    ensures ValueOf(w) < 0x1_0000_0000
  {
    BitsOfValue(w);
    Pow2Of32();
  }

  function CrcValue(data: seq<byte>): Word32 {
    WordValue(Crc(data));
    ValueOf(Crc(data))
  }

  /** `crc` is the CRC-32 of its argument. */
  ghost predicate IsCrc32(crc: Check) { forall data {:trigger CrcValue(data)} :: crc(data) == CrcValue(data) }

  // ------------------------------------------------------------------
  // Chunks.

  predicate IsLetter(b: byte) { 65 <= b <= 90 || 97 <= b <= 122 }

  predicate IsKind(kind: seq<byte>) { |kind| == 4 && forall i :: 0 <= i < 4 ==> IsLetter(kind[i]) }

  function ChunkBytes(c: Chunk, crc: Check): seq<byte>
    requires |c.body| < 0x1_0000_0000
  {
    BigEndian(|c.body|) + c.kind + c.body + BigEndian(crc(c.kind + c.body))
  }

  /** The first chunk of `data`, and what follows it. */
  function ParseChunk(data: seq<byte>, crc: Check): (r: Result<(Chunk, seq<byte>), DecodeError>)
    ensures r.Ok? ==> |r.value.1| < |data|
  {
    if |data| < 12 then Err(ChunkTruncated)
    else
      var length := ReadBigEndian(data, 0);
      if length > MAX_INT32 - 12 || |data| - 12 < length then Err(ChunkLength)
      else if !IsKind(data[4..8]) then Err(ChunkType)
      else if ReadBigEndian(data, 8 + length) != crc(data[4..8 + length]) then Err(ChunkCrc)
      else Ok((Chunk(data[4..8], data[8..8 + length]), data[12 + length..]))
  }

  /** What the decoder knows after some chunks. */
  datatype Progress = Progress(headerSeen: bool, width: nat, height: nat, ended: bool, zlib: seq<byte>)

  const START := Progress(false, 0, 0, false, [])

  function AcceptHeader(p: Progress, body: seq<byte>): Result<Progress, DecodeError> {
    if p.headerSeen || |body| != 13 then Err(BadHeader)
    else
      var width, height := AsInt32(ReadBigEndian(body, 0)), AsInt32(ReadBigEndian(body, 4));
      if width < 1 || height < 1 || width > MAX_DIMENSION || height > MAX_DIMENSION then Err(BadDimensions)
      else if body[8] != 8 || body[9] != 6 || body[10] != 0 || body[11] != 0 || body[12] != 0 then Err(BadFormat)
      else Ok(p.(headerSeen := true, width := width, height := height))
  }

  function Accept(p: Progress, c: Chunk): Result<Progress, DecodeError> {
    if !p.headerSeen && c.kind != IHDR then Err(NoHeader)
    else if c.kind == IHDR then AcceptHeader(p, c.body)
    else if c.kind == IDAT then Ok(p.(zlib := p.zlib + c.body))
    else if c.kind == IEND then (if c.body != [] then Err(BadEnd) else Ok(p.(ended := true)))
    else Ok(p)
  }

  function ReadChunks(data: seq<byte>, p: Progress, crc: Check): Result<Progress, DecodeError>
    decreases |data|
  {
    if data == [] then (if p.ended then Ok(p) else Err(MissingEnd))
    else if p.ended then Err(BytesAfterEnd)
    else match ParseChunk(data, crc)
      case Err(e) => Err(e)
      case Ok((c, rest)) =>
        (match Accept(p, c)
         case Err(e) => Err(e)
         case Ok(p') => ReadChunks(rest, p', crc))
  }

  // ------------------------------------------------------------------
  // Decoding.

  function DecodePixels(width: nat, height: nat, zlib: seq<byte>, inflate: Inflate): Result<seq<byte>, DecodeError> {
    if |zlib| < 6 then Err(ZlibTruncated)
    else if zlib[0] % 16 != 8 then Err(NotDeflate)
    else if zlib[1] / 32 % 2 != 0 then Err(PresetDictionary)
    else if Join(0, 0, zlib[0], zlib[1]) % 31 != 0 then Err(ZlibHeader)
    else match inflate(zlib[2..|zlib| - 4])
      case None => Err(CorruptDeflate)
      case Some(raw) =>
        if |raw| < Size(height, width * 4 + 1) then Err(PixelsShort)
        else if |raw| > Size(height, width * 4 + 1) then Err(PixelsLong)
        else if Adler(raw) != ReadBigEndian(zlib, |zlib| - 4) then Err(AdlerMismatch)
        else match Unfilter(raw, width * 4, ZeroRow(width * 4))
          case Ok(pixels) => Ok(pixels)
          case Err(_) => Err(BadFilter)
  }

  function Decode(data: seq<byte>, inflate: Inflate, crc: Check): Result<Image, DecodeError> {
    if |data| < 20 then Err(Truncated)
    else if data[..8] != SIGNATURE then Err(BadSignature)
    else match ReadChunks(data[8..], START, crc)
      case Err(e) => Err(e)
      case Ok(p) =>
        match DecodePixels(p.width, p.height, p.zlib, inflate)
          case Err(e) => Err(e)
          case Ok(pixels) => Ok(Image(p.width, p.height, pixels))
  }

  // ------------------------------------------------------------------
  // Encoding.

  function HeaderBody(width: nat, height: nat): seq<byte>
    requires width < 0x1_0000_0000 && height < 0x1_0000_0000
  {
    BigEndian(width) + BigEndian(height) + [8, 6, 0, 0, 0]
  }

  function StoredHeader(length: nat, final: bool): seq<byte>
    requires length <= STORED_BLOCK_SIZE
  {
    var complement := STORED_BLOCK_SIZE - length;
    [if final then 1 else 0, length % 256, length / 256, complement % 256, complement / 256]
  }

  function StoredBlock(raw: seq<byte>, final: bool): seq<byte>
    requires |raw| <= STORED_BLOCK_SIZE
  {
    StoredHeader(|raw|, final) + raw
  }

  function StoredBlocks(raw: seq<byte>): seq<byte> {
    if |raw| <= STORED_BLOCK_SIZE then StoredBlock(raw, true)
    else StoredBlock(raw[..STORED_BLOCK_SIZE], false) + StoredBlocks(raw[STORED_BLOCK_SIZE..])
  }

  lemma AdlerBelow(raw: seq<byte>)
    ensures Adler(raw) < 0x1_0000_0000
  {
    assert LowSum(raw) < BASE && HighSum(raw) < BASE;
  }

  function ZlibOf(payload: seq<byte>, raw: seq<byte>): seq<byte> {
    AdlerBelow(raw);
    [0x78, 0x01] + payload + BigEndian(Adler(raw))
  }

  function ThreeChunkFile(header: seq<byte>, zlib: seq<byte>, crc: Check): seq<byte>
    requires |header| == 13 && |zlib| <= MAX_INT32
  {
    SIGNATURE + ChunkBytes(Chunk(IHDR, header), crc) + ChunkBytes(Chunk(IDAT, zlib), crc)
      + ChunkBytes(Chunk(IEND, []), crc)
  }

  function Encode(pixels: seq<byte>, width: nat, height: nat, crc: Check): seq<byte>
    requires 1 <= width <= MAX_DIMENSION && 1 <= height <= MAX_DIMENSION && |pixels| == Size(height, width * 4)
  {
    var raw := UnfilteredRaw(pixels, width, height);
    StoredZlibFits(raw, width, height);
    ThreeChunkFile(HeaderBody(width, height), ZlibOf(StoredBlocks(raw), raw), crc)
  }

  /** Every row behind a zero filter byte. */
  function UnfilteredRaw(pixels: seq<byte>, width: nat, height: nat): (raw: seq<byte>)
    requires |pixels| == Size(height, width * 4)
    ensures |raw| == Size(height, width * 4 + 1)
  {
    UnfilterUndoesFilter(pixels, ZeroRow(height), width * 4, ZeroRow(width * 4));
    Filter(pixels, ZeroRow(height), width * 4, ZeroRow(width * 4))
  }

  function BlockCount(n: nat): nat {
    if n <= STORED_BLOCK_SIZE then 1 else 1 + BlockCount(n - STORED_BLOCK_SIZE)
  }

  lemma {:induction false} StoredSize(raw: seq<byte>)
    ensures |StoredBlocks(raw)| == |raw| + 5 * BlockCount(|raw|)
    ensures STORED_BLOCK_SIZE * (BlockCount(|raw|) - 1) <= |raw|
    decreases |raw|
  {
    if |raw| > STORED_BLOCK_SIZE { StoredSize(raw[STORED_BLOCK_SIZE..]); }
  }

  lemma {:induction false} SizeBelow(n: nat, m: nat)
    requires m <= 65537
    ensures Size(n, m) <= 65537 * n
  {
    if n > 0 { SizeBelow(n - 1, m); }
  }

  /** The length of an encoded chunk is never too large for the reader. */
  lemma StoredZlibFits(raw: seq<byte>, width: nat, height: nat)
    requires width <= MAX_DIMENSION && height <= MAX_DIMENSION && |raw| == Size(height, width * 4 + 1)
    ensures |ZlibOf(StoredBlocks(raw), raw)| <= MAX_INT32 - 12
  {
    SizeBelow(height, width * 4 + 1);
    StoredSize(raw);
  }
}
