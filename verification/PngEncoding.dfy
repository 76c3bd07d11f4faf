/**
 Decoding undoes encoding. Of the decompressor only its behaviour on streams
 of stored blocks is used (section 3.2.4 of RFC 1951).
 */
module PngEncoding {
  import opened Bytes
  import opened ScanlineFilter
  import opened Png
  import opened PngRoundTrip

  /** What a stream of stored blocks inflates to; None if `s` is not one (with
      zero padding bits and nothing after the final block). */
  function InflateStored(s: seq<byte>): Option<seq<byte>>
    decreases |s|
  {
    if |s| < 5 || s[0] > 1 then None
    else
      var length := Join(0, 0, s[2], s[1]);
      if Join(0, 0, s[4], s[3]) != STORED_BLOCK_SIZE - length || |s| < 5 + length then None
      else if s[0] == 1 then (if |s| == 5 + length then Some(s[5..]) else None)
      else match InflateStored(s[5 + length..])
        case None => None
        case Some(rest) => Some(s[5..5 + length] + rest)
  }

  /** The decompressor is right about stored blocks. */
  ghost predicate Conforms(inflate: Inflate) {
    forall s :: InflateStored(s).Some? ==> inflate(s) == InflateStored(s)
  }

  lemma BlockParts(raw: seq<byte>, final: bool, rest: seq<byte>)
    requires |raw| <= STORED_BLOCK_SIZE
    ensures var s := StoredBlock(raw, final) + rest; var n := |raw|;
            |s| == 5 + n + |rest| && s[0] == (if final then 1 else 0)
            && Join(0, 0, s[2], s[1]) == n && Join(0, 0, s[4], s[3]) == STORED_BLOCK_SIZE - n
            && s[5..5 + n] == raw && s[5 + n..] == rest
  {
  }

  lemma LastBlockInflates(raw: seq<byte>)
    requires |raw| <= STORED_BLOCK_SIZE
    ensures InflateStored(StoredBlock(raw, true)) == Some(raw)
  {
    var s := StoredBlock(raw, true);
    BlockParts(raw, true, []);
    assert s == s + [] && s[5..] == s[5..5 + |raw|];
  }

  lemma InflatesFirst(s: seq<byte>, n: nat)
    requires |s| >= 5 + n && s[0] == 0 && Join(0, 0, s[2], s[1]) == n && Join(0, 0, s[4], s[3]) == STORED_BLOCK_SIZE - n
    requires InflateStored(s[5 + n..]).Some?
    ensures InflateStored(s) == Some(s[5..5 + n] + InflateStored(s[5 + n..]).value)
  {
  }

  lemma BlockInflates(raw: seq<byte>, rest: seq<byte>)
    requires |raw| <= STORED_BLOCK_SIZE && InflateStored(rest).Some?
    ensures InflateStored(StoredBlock(raw, false) + rest) == Some(raw + InflateStored(rest).value)
  {
    BlockParts(raw, false, rest);
    InflatesFirst(StoredBlock(raw, false) + rest, |raw|);
  }

  lemma ManyBlocksInflate(raw: seq<byte>, first: seq<byte>, more: seq<byte>)
    requires |first| == STORED_BLOCK_SIZE && raw == first + more && more != []
             && InflateStored(StoredBlocks(more)) == Some(more)
    ensures InflateStored(StoredBlocks(raw)) == Some(raw)
  {
    var rest := StoredBlocks(more);
    assert raw[..STORED_BLOCK_SIZE] == first && raw[STORED_BLOCK_SIZE..] == more;
    BlockInflates(first, rest);
  }

  lemma {:induction false} StoredBlocksInflate(raw: seq<byte>)
    ensures InflateStored(StoredBlocks(raw)) == Some(raw)
    decreases |raw|
  {
    if |raw| <= STORED_BLOCK_SIZE {
      LastBlockInflates(raw);
    } else {
      var first, more := raw[..STORED_BLOCK_SIZE], raw[STORED_BLOCK_SIZE..];
      StoredBlocksInflate(more);
      ManyBlocksInflate(raw, first, more);
    }
  }

  lemma ThreeChunks(a: Chunk, b: Chunk, c: Chunk, crc: Check)
    requires ReadableChunk(a) && ReadableChunk(b) && ReadableChunk(c)
    ensures AllReadable([a, b, c])
    ensures AllChunkBytes([a, b, c], crc) == ChunkBytes(a, crc) + ChunkBytes(b, crc) + ChunkBytes(c, crc)
  {
    FirstOf(c, [], crc);
    FirstOf(b, [c], crc);
    FirstOf(a, [b, c], crc);
    assert [c] + [] == [c] && [b] + [c] == [b, c] && [a] + [b, c] == [a, b, c];
    Regroup(ChunkBytes(a, crc), ChunkBytes(b, crc), ChunkBytes(c, crc));
  }

  lemma Regroup(a: seq<byte>, b: seq<byte>, c: seq<byte>)
    ensures a + (b + (c + [])) == a + b + c
  {
  }

  lemma ThreeChunkPng(header: Chunk, idat: Chunk, end: Chunk, width: nat, height: nat)
    requires IsHeader(header, width, height) && IsEnd(end) && ReadableChunk(idat) && idat.kind == IDAT
    ensures IsPng([header, idat, end], width, height)
    ensures ReadableChunk(header) && ReadableChunk(end)
  {
    assert [header, idat, end][1..] == [idat, end] && [idat, end][1..] == [end];
  }

  lemma OneIdat(header: Chunk, idat: Chunk, end: Chunk)
    requires header.kind == IHDR && idat.kind == IDAT && end.kind == IEND
    ensures ImageData([header, idat, end]) == idat.body
  {
    assert [header, idat, end][1..] == [idat, end] && [idat, end][1..] == [end] && [end][1..] == [];
    assert ImageData([end]) == [];
    assert ImageData([idat, end]) == idat.body + [];
  }

  lemma CarriesPayload(zlib: seq<byte>, payload: seq<byte>, raw: seq<byte>, width: nat, height: nat, inflate: Inflate)
    requires zlib == ZlibOf(payload, raw) && inflate(payload) == Some(raw) && |raw| == Size(height, width * 4 + 1)
    ensures CarriesScanlines(zlib, width, height, raw, inflate)
  {
    var head: seq<byte> := [0x78, 0x01];
    assert GoodZlibHeader(head) && zlib == Zlib(head, payload, raw);
  }

  lemma CarriesStored(chunks: seq<Chunk>, image: Image, raw: seq<byte>, inflate: Inflate)
    requires |image.pixels| == Size(image.height, image.width * 4) && Conforms(inflate)
    requires raw == UnfilteredRaw(image.pixels, image.width, image.height)
    requires ImageData(chunks) == ZlibOf(StoredBlocks(raw), raw)
    ensures Carries(chunks, ZeroRow(image.height), image, inflate)
  {
    StoredBlocksInflate(raw);
    CarriesPayload(ImageData(chunks), StoredBlocks(raw), raw, image.width, image.height, inflate);
  }

  /** Decoding undoes encoding, for every image of supported size. */
  lemma DecodeUndoesEncode(pixels: seq<byte>, width: nat, height: nat, inflate: Inflate, crc: Check)
    requires GoodSize(width, height) && |pixels| == height * (width * 4) && Conforms(inflate)
    ensures |pixels| == Size(height, width * 4)
    ensures Decode(Encode(pixels, width, height, crc), inflate, crc) == Ok(Image(width, height, pixels))
  {
    SizeIsProduct(height, width * 4);
    var raw := UnfilteredRaw(pixels, width, height);
    var header, idat := Chunk(IHDR, HeaderBody(width, height)), Chunk(IDAT, ZlibOf(StoredBlocks(raw), raw));
    var end := Chunk(IEND, []);
    StoredZlibFits(raw, width, height);
    ThreeChunkPng(header, idat, end, width, height);
    OneIdat(header, idat, end);
    var chunks, image := [header, idat, end], Image(width, height, pixels);
    ThreeChunks(header, idat, end, crc);
    CarriesStored(chunks, image, raw, inflate);
    DecodesWhatItShows(chunks, ZeroRow(height), image, inflate, crc);
    EncodeJoins(pixels, width, height, header, idat, end, crc);
  }

  lemma EncodeJoins(pixels: seq<byte>, width: nat, height: nat, header: Chunk, idat: Chunk, end: Chunk, crc: Check)
    requires GoodSize(width, height) && |pixels| == Size(height, width * 4)
    requires var raw := UnfilteredRaw(pixels, width, height);
             header == Chunk(IHDR, HeaderBody(width, height)) && idat == Chunk(IDAT, ZlibOf(StoredBlocks(raw), raw))
             && end == Chunk(IEND, [])
    requires ReadableChunk(header) && ReadableChunk(idat) && ReadableChunk(end)
    ensures Encode(pixels, width, height, crc)
         == SIGNATURE + (ChunkBytes(header, crc) + ChunkBytes(idat, crc) + ChunkBytes(end, crc))
  {
    Associates(SIGNATURE, ChunkBytes(header, crc), ChunkBytes(idat, crc), ChunkBytes(end, crc));
  }

  lemma Associates(a: seq<byte>, b: seq<byte>, c: seq<byte>, d: seq<byte>)
    ensures a + b + c + d == a + (b + c + d)
  {
  }
}
