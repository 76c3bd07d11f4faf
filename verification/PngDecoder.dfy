/**
 The decoder as it runs: an offset walking through the file, a buffer filled
 from the decompressor. The result is exactly that of the format's functions.
 */
module PngDecoder {
  import opened Bytes
  import opened Checksums
  import opened ScanlineFilter
  import opened Png
  import opened PngEncoder

  /** A decompressor over `remaining` bytes: each read gives some of them, none
      only at the end. */
  class DeflateStream {
    var remaining: seq<byte>
    const corrupt: bool

    constructor (deflated: seq<byte>, inflate: Inflate)
      ensures corrupt == inflate(deflated).None?
      ensures !corrupt ==> remaining == inflate(deflated).value
    {
      var raw := inflate(deflated);
      corrupt := raw.None?;
      remaining := if raw.None? then [] else raw.value;
    }

    method Read(buffer: array<byte>, offset: nat, count: nat) returns (read: nat)
      requires !corrupt && offset + count <= buffer.Length
      modifies this, buffer
      ensures read <= count && read <= |old(remaining)|
      ensures read == 0 <==> count == 0 || old(remaining) == []
      ensures remaining == old(remaining)[read..]
      ensures buffer[..] == old(buffer[..offset]) + old(remaining)[..read] + old(buffer[offset + read..])
    {
      read :| 0 <= read <= count && read <= |remaining| && (read == 0 <==> count == 0 || remaining == []) by {
        if count == 0 || remaining == [] {
          assert 0 <= 0 <= count;
        } else {
          assert 0 <= 1 <= count && 1 <= |remaining|;
        }
      }
      BlockCopy(remaining, 0, buffer, offset, read);
      remaining := remaining[read..];
    }
  }

  /** Fills a buffer of the expected size, however much each read returns, then
      asks for one byte more. */
  method InflateExactly(inflater: DeflateStream, expected: nat) returns (r: Result<array<byte>, DecodeError>)
    modifies inflater
    ensures r.Ok? ==> fresh(r.value) && r.value.Length == expected
    ensures r.Ok? ==> !inflater.corrupt && r.value[..] == old(inflater.remaining)
    ensures r.Err? ==> r.error == (if inflater.corrupt then CorruptDeflate
                                   else if |old(inflater.remaining)| < expected then PixelsShort else PixelsLong)
    ensures r.Err? && !inflater.corrupt ==> |old(inflater.remaining)| != expected
  {
    if inflater.corrupt { return Err(CorruptDeflate); }
    ghost var all := inflater.remaining;
    var raw := new byte[expected](_ => 0);
    var total := 0;
    while total < raw.Length
      invariant total <= raw.Length && raw[..total] + inflater.remaining == all
    {
      var read := inflater.Read(raw, total, raw.Length - total);
      if read <= 0 { return Err(PixelsShort); }
      total := total + read;
    }
    var excess := new byte[1](_ => 0);
    var read := inflater.Read(excess, 0, 1);
    if read != 0 { return Err(PixelsLong); }
    assert raw[..total] == raw[..];
    r := Ok(raw);
  }

  method ReadChunkType(data: seq<byte>, offset: nat) returns (r: Result<seq<byte>, DecodeError>)
    requires offset + 4 <= |data|
    ensures r == if IsKind(data[offset..offset + 4]) then Ok(data[offset..offset + 4]) else Err(ChunkType)
  {
    ghost var kind := data[offset..offset + 4];
    for i := 0 to 4
      invariant forall k :: 0 <= k < i ==> IsLetter(kind[k])
    {
      var value := data[offset + i];
      assert value == kind[i];
      var upper := value >= 65 && value <= 90;
      var lower := value >= 97 && value <= 122;
      if !upper && !lower { return Err(ChunkType); }
    }
    r := Ok(data[offset..offset + 4]);
  }

  /** The chunk at an offset of the whole file. */
  function ChunkAt(data: seq<byte>, offset: nat, crc: Check): Result<(Chunk, seq<byte>), DecodeError>
    requires offset <= |data|
  {
    if |data| - offset < 12 then Err(ChunkTruncated)
    else
      var length := ReadBigEndian(data, offset);
      if length > MAX_INT32 - 12 || |data| - offset - 12 < length then Err(ChunkLength)
      else if !IsKind(data[offset + 4..offset + 4 + 4]) then Err(ChunkType)
      else if ReadBigEndian(data, offset + 8 + length) != crc(data[offset + 4..offset + 4 + (length + 4)])
        then Err(ChunkCrc)
      else Ok((Chunk(data[offset + 4..offset + 4 + 4], data[offset + 8..offset + 8 + length]),
               data[offset + 12 + length..]))
  }

  lemma ReadsFurther(data: seq<byte>, from: nat, at: nat)
    requires from + at + 4 <= |data|
    ensures ReadBigEndian(data, from + at) == ReadBigEndian(data[from..], at)
  {
  }

  lemma SliceFurther(data: seq<byte>, from: nat, a: nat, b: nat)
    requires from + b <= |data| && a <= b
    ensures data[from..][a..b] == data[from + a..from + b] && data[from..][b..] == data[from + b..]
  {
  }

  lemma ChunkAtParses(data: seq<byte>, offset: nat, crc: Check)
    requires offset <= |data|
    ensures ParseChunk(data[offset..], crc) == ChunkAt(data, offset, crc)
  {
    if |data| - offset >= 12 {
      ReadsFurther(data, offset, 0);
      var length: nat := ReadBigEndian(data, offset);
      if |data| - offset - 12 >= length {
        ReadsFurther(data, offset, 8 + length);
        SliceFurther(data, offset, 4, 8);
        SliceFurther(data, offset, 8, 8 + length);
        SliceFurther(data, offset, 4, 8 + length);
        SliceFurther(data, offset, 12 + length, 12 + length);
      }
    }
  }

  method ReadChunk(table: array<Word>, data: seq<byte>, offset: nat, ghost crc: Check)
    returns (r: Result<Chunk, DecodeError>)
    requires IsTable(table) && IsCrc32(crc) && offset <= |data|
    ensures r.Err? ==> ChunkAt(data, offset, crc) == Err(r.error)
    ensures r.Ok? ==> offset + 12 + |r.value.body| <= |data|
                      && ChunkAt(data, offset, crc) == Ok((r.value, data[offset + 12 + |r.value.body|..]))
  {
    if |data| - offset < 12 { return Err(ChunkTruncated); }
    var declaredLength := ReadBigEndian(data, offset);
    if declaredLength > MAX_INT32 - 12 || |data| - offset - 12 < declaredLength { return Err(ChunkLength); }
    var length := declaredLength;
    var kind := ReadChunkType(data, offset + 4);
    if kind.Err? { return Err(kind.error); }
    var expectedCrc := ReadBigEndian(data, offset + 8 + length);
    var actualCrc := CrcOfRange(table, data, offset + 4, length + 4, crc);
    if expectedCrc != actualCrc { return Err(ChunkCrc); }
    r := Ok(Chunk(kind.value, data[offset + 8..offset + 8 + length]));
  }

  method AcceptChunk(p: Progress, c: Chunk) returns (r: Result<Progress, DecodeError>)
    requires SizeKnown(p)
    ensures r == Accept(p, c) && (r.Ok? ==> SizeKnown(r.value))
  {
    var width, height, headerSeen, endSeen, zlib := p.width, p.height, p.headerSeen, p.ended, p.zlib;
    if !headerSeen && c.kind != IHDR { return Err(NoHeader); }
    if c.kind == IHDR {
      if headerSeen || |c.body| != 13 { return Err(BadHeader); }
      var declaredWidth, declaredHeight := AsInt32(ReadBigEndian(c.body, 0)), AsInt32(ReadBigEndian(c.body, 4));
      if declaredWidth < 1 || declaredHeight < 1 || declaredWidth > MAX_DIMENSION || declaredHeight > MAX_DIMENSION {
        return Err(BadDimensions);
      }
      if c.body[8] != 8 || c.body[9] != 6 || c.body[10] != 0 || c.body[11] != 0 || c.body[12] != 0 {
        return Err(BadFormat);
      }
      width, height, headerSeen := declaredWidth, declaredHeight, true;
    } else if c.kind == IDAT {
      zlib := zlib + c.body;
    } else if c.kind == IEND {
      if |c.body| != 0 { return Err(BadEnd); }
      endSeen := true;
    }
    r := Ok(Progress(headerSeen, width, height, endSeen, zlib));
  }

  /** An end comes only after a header with a size. */
  predicate SizeKnown(p: Progress) { (p.ended ==> p.headerSeen) && (p.headerSeen ==> p.width >= 1 && p.height >= 1) }

  /** All chunks, in one pass over the file. */
  method ReadAllChunks(table: array<Word>, data: seq<byte>, start: nat, ghost crc: Check)
    returns (r: Result<Progress, DecodeError>)
    requires IsTable(table) && IsCrc32(crc) && start <= |data|
    ensures r == ReadChunks(data[start..], START, crc)
    ensures r.Ok? ==> r.value.width >= 1 && r.value.height >= 1
  {
    var p := START;
    var offset := start;
    while offset < |data|
      invariant start <= offset <= |data| && SizeKnown(p)
      invariant ReadChunks(data[start..], START, crc) == ReadChunks(data[offset..], p, crc)
    {
      var accepted, next := NextChunk(table, data, offset, p, crc);
      ReadsAt(data, offset, p, crc);
      if accepted.Err? { return Err(accepted.error); }
      p, offset := accepted.value, next;
    }
    assert data[offset..] == [];
    if !p.ended { return Err(MissingEnd); }
    r := Ok(p);
  }

  /** Where one chunk leaves the reader. */
  function NextAt(data: seq<byte>, offset: nat, p: Progress, crc: Check): Result<Progress, DecodeError>
    requires offset < |data|
  {
    if p.ended then Err(BytesAfterEnd)
    else match ChunkAt(data, offset, crc)
      case Err(e) => Err(e)
      case Ok((c, _)) => Accept(p, c)
  }

  method NextChunk(table: array<Word>, data: seq<byte>, offset: nat, p: Progress, ghost crc: Check)
    returns (r: Result<Progress, DecodeError>, next: nat)
    requires IsTable(table) && IsCrc32(crc) && offset < |data| && SizeKnown(p)
    ensures r == NextAt(data, offset, p, crc)
    ensures r.Ok? ==>
              offset < next <= |data| && SizeKnown(r.value) && data[next..] == ChunkAt(data, offset, crc).value.1
  {
    next := offset;
    if p.ended { return Err(BytesAfterEnd), next; }
    var chunk := ReadChunk(table, data, offset, crc);
    if chunk.Err? { return Err(chunk.error), next; }
    r := AcceptChunk(p, chunk.value);
    next := offset + 12 + |chunk.value.body|;
  }

  /** Reading from `offset` is reading on after the chunk there. */
  predicate ReadsTo(data: seq<byte>, offset: nat, p: Progress, crc: Check)
    requires offset < |data| && NextAt(data, offset, p, crc).Ok?
  {
    var rest := ChunkAt(data, offset, crc).value.1;
    ReadChunks(data[offset..], p, crc) == ReadChunks(rest, NextAt(data, offset, p, crc).value, crc)
  }

  lemma ReadsAt(data: seq<byte>, offset: nat, p: Progress, crc: Check)
    requires offset < |data|
    ensures NextAt(data, offset, p, crc).Err? ==>
              ReadChunks(data[offset..], p, crc) == Err(NextAt(data, offset, p, crc).error)
    ensures NextAt(data, offset, p, crc).Ok? ==> ReadsTo(data, offset, p, crc)
  {
    ChunkAtParses(data, offset, crc);
  }

  /** The decoder for a whole file. */
  method DecodeRgba8Png(table: array<Word>, data: seq<byte>, inflate: Inflate, ghost crc: Check)
    returns (r: Result<Image, DecodeError>)
    requires IsTable(table) && IsCrc32(crc)
    ensures r == Decode(data, inflate, crc)
  {
    if |data| < |SIGNATURE| + 12 { return Err(Truncated); }
    for i := 0 to |SIGNATURE|
      invariant data[..i] == SIGNATURE[..i]
    {
      if data[i] != SIGNATURE[i] {
        assert data[..8][i] != SIGNATURE[i];
        return Err(BadSignature);
      }
    }
    assert data[..8] == SIGNATURE;
    var chunks := ReadAllChunks(table, data, |SIGNATURE|, crc);
    if chunks.Err? { return Err(chunks.error); }
    var p := chunks.value;
    var pixels := ReadPixels(p.width, p.height, p.zlib, inflate);
    if pixels.Err? { return Err(pixels.error); }
    r := Ok(Image(p.width, p.height, pixels.value[..]));
  }

  method ReadPixels(width: nat, height: nat, zlib: seq<byte>, inflate: Inflate)
    returns (r: Result<array<byte>, DecodeError>)
    requires width >= 1
    ensures r.Ok? ==> DecodePixels(width, height, zlib, inflate) == Ok(r.value[..])
    ensures r.Err? ==> DecodePixels(width, height, zlib, inflate) == Err(r.error)
  {
    if |zlib| < 6 { return Err(ZlibTruncated); }
    if zlib[0] % 16 != 8 { return Err(NotDeflate); }
    if zlib[1] / 32 % 2 != 0 { return Err(PresetDictionary); }
    if Join(0, 0, zlib[0], zlib[1]) % 31 != 0 { return Err(ZlibHeader); }
    var stride := width * 4;
    SizeIsProduct(height, stride + 1);
    var inflater := new DeflateStream(zlib[2..|zlib| - 4], inflate);
    var inflated := InflateExactly(inflater, height * (stride + 1));
    if inflated.Err? { return Err(inflated.error); }
    var raw := inflated.value[..];
    var adler := Adler32(raw);
    if adler != ReadBigEndian(zlib, |zlib| - 4) { return Err(AdlerMismatch); }
    var pixels := UnfilterRgba(raw, width, height);
    r := if pixels.Ok? then Ok(pixels.value) else Err(BadFilter);
  }
}
