/**
 The encoder as it runs: bytes written to a memory stream, scanlines copied
 into a buffer. Each method is tied to the functions of the format.
 */
module PngEncoder {
  import opened Bytes
  import opened Checksums
  import opened ScanlineFilter
  import opened Png

  class MemoryStream {
    var contents: seq<byte>

    constructor ()
      ensures contents == []
    {
      contents := [];
    }

    method Write(data: seq<byte>)
      modifies this
      ensures contents == old(contents) + data
    {
      contents := contents + data;
    }
  }

  method BlockCopy(source: seq<byte>, from: nat, target: array<byte>, to: nat, count: nat)
    requires from + count <= |source| && to + count <= target.Length
    modifies target
    ensures target[..] == old(target[..to]) + source[from..from + count] + old(target[to + count..])
  {
    ghost var was, piece := target[..], source[from..from + count];
    for i := 0 to count
      invariant forall j :: 0 <= j < target.Length ==>
                  target[j] == if to <= j < to + i then piece[j - to] else was[j]
    {
      target[to + i] := source[from + i];
    }
    Pasted(was, piece, to, target[..]);
  }

  lemma Pasted(was: seq<byte>, piece: seq<byte>, to: nat, now: seq<byte>)
    requires to + |piece| <= |was| == |now|
    requires forall j :: 0 <= j < |now| ==> now[j] == if to <= j < to + |piece| then piece[j - to] else was[j]
    ensures now == was[..to] + piece + was[to + |piece|..]
  {
  }

  method WriteUInt32BigEndian(buffer: array<byte>, offset: nat, value: Word32)
    requires offset + 4 <= buffer.Length
    modifies buffer
    ensures buffer[..] == old(buffer[..offset]) + BigEndian(value) + old(buffer[offset + 4..])
  {
    buffer[offset] := value / 0x100_0000;
    buffer[offset + 1] := value / 0x1_0000 % 256;
    buffer[offset + 2] := value / 0x100 % 256;
    buffer[offset + 3] := value % 256;
  }

  method WriteWord(output: MemoryStream, value: Word32)
    modifies output
    ensures output.contents == old(output.contents) + BigEndian(value)
  {
    var bytes := new byte[4](_ => 0);
    WriteUInt32BigEndian(bytes, 0, value);
    output.Write(bytes[..]);
  }

  method TypeAndBody(kind: seq<byte>, body: seq<byte>) returns (bytes: array<byte>)
    requires |kind| == 4
    ensures fresh(bytes) && bytes[..] == kind + body
  {
    bytes := new byte[4 + |body|](_ => 0);
    for i := 0 to 4
      invariant bytes[..i] == kind[..i]
    {
      bytes[i] := kind[i];
    }
    BlockCopy(body, 0, bytes, 4, |body|);
  }

  method CrcOfRange(table: array<Word>, data: seq<byte>, offset: nat, count: nat, ghost crc: Check)
    returns (sum: Word32)
    requires IsTable(table) && IsCrc32(crc) && offset + count <= |data|
    ensures sum == crc(data[offset..offset + count])
  {
    var word := Crc32(table, data, offset, count);
    ghost var range := data[offset..offset + count];
    WordValue(word);
    sum := ValueOf(word);
    CrcIs(range, word, crc);
  }

  lemma CrcIs(data: seq<byte>, word: Word, crc: Check)
    requires word == Crc(data) && IsCrc32(crc)
    ensures crc(data) == ValueOf(word)
  {
    assert CrcValue(data) == ValueOf(Crc(data));
  }

  method WriteChunk(table: array<Word>, output: MemoryStream, kind: seq<byte>, body: seq<byte>, ghost crc: Check)
    requires IsTable(table) && IsCrc32(crc) && |kind| == 4 && |body| < 0x1_0000_0000
    modifies output
    ensures output.contents == old(output.contents) + ChunkBytes(Chunk(kind, body), crc)
  {
    WriteWord(output, |body|);
    var typeAndBody := TypeAndBody(kind, body);
    ghost var data := kind + body;
    output.Write(typeAndBody[..]);
    var sum := CrcOfRange(table, typeAndBody[..], 0, typeAndBody.Length, crc);
    WriteWord(output, sum);
    WholeRange(data);
    JoinChunk(old(output.contents), Chunk(kind, body), crc);
  }

  lemma WholeRange(data: seq<byte>)
    ensures data[0..0 + |data|] == data
  {
  }

  lemma JoinChunk(before: seq<byte>, c: Chunk, crc: Check)
    requires |c.body| < 0x1_0000_0000
    ensures before + BigEndian(|c.body|) + (c.kind + c.body) + BigEndian(crc(c.kind + c.body))
            == before + ChunkBytes(c, crc)
  {
  }

  /** The body runs at least once, also for no data at all. */
  method ZlibStored(raw: seq<byte>) returns (zlib: seq<byte>)
    ensures zlib == ZlibOf(StoredBlocks(raw), raw)
  {
    var output := new MemoryStream();
    output.Write([0x78, 0x01]);
    var offset: nat, more := 0, true;
    while more
      invariant offset <= |raw|
      invariant if more then output.contents + StoredBlocks(raw[offset..]) == [0x78, 0x01] + StoredBlocks(raw)
                else output.contents == [0x78, 0x01] + StoredBlocks(raw)
      decreases |raw| - offset, more
    {
      var blockLength := if |raw| - offset < 65535 then |raw| - offset else 65535;
      var final := offset + blockLength >= |raw|;
      var block := raw[offset..offset + blockLength];
      ghost var before := output.contents;
      var header := [if final then 1 else 0, blockLength % 256, blockLength / 256 % 256,
                     Complement(blockLength) % 256, Complement(blockLength) / 256 % 256];
      HeaderWritten(blockLength, final);
      output.Write(header);
      output.Write(block);
      BlockWritten(before, raw[offset..], block, header, final);
      assert raw[offset..][blockLength..] == raw[offset + blockLength..];
      offset := offset + blockLength;
      more := offset < |raw|;
    }
    var adler := Adler32(raw);
    WriteWord(output, adler);
    zlib := output.contents;
  }

  /** Bitwise complement of a signed 32-bit value. */
  function Complement(v: int): int { -1 - v }

  lemma ComplementDigits(n: nat)
    requires n <= STORED_BLOCK_SIZE
    ensures n / 256 % 256 == n / 256
    ensures Complement(n) % 256 == (STORED_BLOCK_SIZE - n) % 256
    ensures Complement(n) / 256 % 256 == (STORED_BLOCK_SIZE - n) / 256
  {
    assert Complement(n) == (STORED_BLOCK_SIZE - n) - 256 * 256;
  }

  lemma HeaderWritten(n: nat, final: bool)
    requires n <= STORED_BLOCK_SIZE
    ensures [if final then 1 else 0, n % 256, n / 256 % 256, Complement(n) % 256, Complement(n) / 256 % 256]
         == StoredHeader(n, final)
  {
    ComplementDigits(n);
  }

  lemma BlockWritten(before: seq<byte>, raw: seq<byte>, block: seq<byte>, header: seq<byte>, final: bool)
    requires |block| <= STORED_BLOCK_SIZE && block <= raw && final == (|block| == |raw|)
    requires !final ==> |block| == STORED_BLOCK_SIZE
    requires header == StoredHeader(|block|, final)
    ensures if final then before + header + block == before + StoredBlocks(raw)
            else before + header + block + StoredBlocks(raw[|block|..]) == before + StoredBlocks(raw)
  {
    if final {
      assert raw == block;
      Regroup(before, header, block, []);
    } else {
      assert raw[..STORED_BLOCK_SIZE] == block;
      Regroup(before, header, block, StoredBlocks(raw[|block|..]));
    }
  }

  lemma Regroup(a: seq<byte>, b: seq<byte>, c: seq<byte>, d: seq<byte>)
    ensures a + b + c + d == a + ((b + c) + d) && a + b + c == a + (b + c)
  {
  }

  // ------------------------------------------------------------------
  // Encoding.

  /** Every row behind a zero byte: filter type 0 keeps the row as it is. */
  function RawRows(pixels: seq<byte>, stride: nat, n: nat): seq<byte>
    requires |pixels| == Size(n, stride)
  {
    if n == 0 then [] else [0] + pixels[..stride] + RawRows(pixels[stride..], stride, n - 1)
  }

  lemma {:induction false} FilterZeroRow(row: seq<byte>, prev: seq<byte>, n: nat)
    requires n <= |row| == |prev|
    ensures FilterRow(0, row, prev, n) == row[..n]
  {
    if n > 0 {
      FilterZeroRow(row, prev, n - 1);
      assert row[..n] == row[..n - 1] + [row[n - 1]];
    }
  }

  lemma ZeroRowTail(n: nat)
    requires n > 0
    ensures ZeroRow(n)[1..] == ZeroRow(n - 1)
  {
  }

  lemma {:induction false} FilterZeroRows(pixels: seq<byte>, stride: nat, n: nat, prev: seq<byte>)
    requires |prev| == stride && |pixels| == Size(n, stride)
    ensures Filter(pixels, ZeroRow(n), stride, prev) == RawRows(pixels, stride, n)
    decreases n
  {
    if n > 0 {
      var row := pixels[..stride];
      FilterZeroRow(row, prev, stride);
      assert row[..stride] == row;
      ZeroRowTail(n);
      FilterZeroRows(pixels[stride..], stride, n - 1, row);
    }
  }

  lemma RowWritten(before: seq<byte>, pixels: seq<byte>, from: nat, stride: nat, n: nat)
    requires n > 0 && from <= |pixels| && |pixels| - from == Size(n, stride)
    ensures from + stride <= |pixels| && |pixels[from + stride..]| == Size(n - 1, stride)
    ensures before + [0] + pixels[from..from + stride] + RawRows(pixels[from + stride..], stride, n - 1)
         == before + RawRows(pixels[from..], stride, n)
  {
    var rest := pixels[from..];
    assert rest[..stride] == pixels[from..from + stride] && rest[stride..] == pixels[from + stride..];
    Regroup(before, [0], pixels[from..from + stride], RawRows(pixels[from + stride..], stride, n - 1));
  }

  method WriteRow(pixels: seq<byte>, rowStart: nat, raw: array<byte>, rawIndex: nat, stride: nat)
    requires rowStart + stride <= |pixels| && rawIndex + 1 + stride <= raw.Length
    modifies raw
    ensures raw[..rawIndex + 1 + stride] == old(raw[..rawIndex]) + [0] + pixels[rowStart..rowStart + stride]
  {
    raw[rawIndex] := 0;
    BlockCopy(pixels, rowStart, raw, rawIndex + 1, stride);
  }

  /** The rows but the last `left` are in the buffer; with the others it will hold `all`. */
  ghost predicate Written(buffer: seq<byte>, pixels: seq<byte>, rawIndex: nat, rowStart: nat, stride: nat, left: nat,
                          all: seq<byte>) {
    && rowStart <= |pixels| && |pixels| - rowStart == Size(left, stride)
    && rawIndex <= |buffer| && |buffer| - rawIndex == Size(left, stride + 1)
    && buffer[..rawIndex] + RawRows(pixels[rowStart..], stride, left) == all
  }

  lemma RoomForRow(buffer: seq<byte>, pixels: seq<byte>, rawIndex: nat, rowStart: nat, stride: nat, left: nat,
                   all: seq<byte>)
    requires left > 0 && Written(buffer, pixels, rawIndex, rowStart, stride, left, all)
    ensures rowStart + stride <= |pixels| && rawIndex + 1 + stride <= |buffer|
  {
  }

  lemma OneRowLess(before: seq<byte>, after: seq<byte>, pixels: seq<byte>, rawIndex: nat, rowStart: nat, stride: nat,
                   left: nat, all: seq<byte>)
    requires left > 0 && Written(before, pixels, rawIndex, rowStart, stride, left, all) && |after| == |before|
    requires rowStart + stride <= |pixels| && rawIndex + 1 + stride <= |after|
    requires after[..rawIndex + 1 + stride] == before[..rawIndex] + [0] + pixels[rowStart..rowStart + stride]
    ensures Written(after, pixels, rawIndex + 1 + stride, rowStart + stride, stride, left - 1, all)
  {
    RowWritten(before[..rawIndex], pixels, rowStart, stride, left);
  }

  /** One more row, written in place. */
  method WriteNextRow(pixels: seq<byte>, rowStart: nat, raw: array<byte>, rawIndex: nat, stride: nat, ghost left: nat,
                      ghost all: seq<byte>)
    requires left > 0 && Written(raw[..], pixels, rawIndex, rowStart, stride, left, all)
    modifies raw
    ensures Written(raw[..], pixels, rawIndex + 1 + stride, rowStart + stride, stride, left - 1, all)
  {
    ghost var before := raw[..];
    RoomForRow(before, pixels, rawIndex, rowStart, stride, left, all);
    assert raw[..rawIndex] == before[..rawIndex];
    WriteRow(pixels, rowStart, raw, rawIndex, stride);
    assert raw[..][..rawIndex + 1 + stride] == raw[..rawIndex + 1 + stride];
    OneRowLess(before, raw[..], pixels, rawIndex, rowStart, stride, left, all);
  }

  lemma NothingLeft(buffer: seq<byte>, pixels: seq<byte>, rawIndex: nat, rowStart: nat, stride: nat, all: seq<byte>)
    requires Written(buffer, pixels, rawIndex, rowStart, stride, 0, all)
    ensures buffer == all
  {
    assert buffer == buffer[..rawIndex];
  }

  lemma NothingWritten(buffer: seq<byte>, pixels: seq<byte>, stride: nat, left: nat)
    requires |pixels| == Size(left, stride) && |buffer| == Size(left, stride + 1)
    ensures Written(buffer, pixels, 0, 0, stride, left, RawRows(pixels, stride, left))
  {
    assert pixels[0..] == pixels;
  }

  method RawScanlines(pixels: seq<byte>, width: nat, height: nat) returns (raw: array<byte>)
    requires |pixels| == Size(height, width * 4)
    ensures fresh(raw) && raw[..] == RawRows(pixels, width * 4, height)
  {
    var stride := width * 4;
    raw := new byte[Size(height, stride + 1)](_ => 0);
    var rawIndex: nat, rowStart: nat := 0, 0;
    ghost var all := RawRows(pixels, stride, height);
    NothingWritten(raw[..], pixels, stride, height);
    for y := 0 to height
      invariant Written(raw[..], pixels, rawIndex, rowStart, stride, height - y, all)
    {
      WriteNextRow(pixels, rowStart, raw, rawIndex, stride, height - y, all);
      rawIndex, rowStart := rawIndex + 1 + stride, rowStart + stride;
    }
    NothingLeft(raw[..], pixels, rawIndex, rowStart, stride, all);
  }

  method HeaderBytes(width: nat, height: nat) returns (header: array<byte>)
    requires width <= MAX_DIMENSION && height <= MAX_DIMENSION
    ensures fresh(header) && header[..] == HeaderBody(width, height)
  {
    header := new byte[13](_ => 0);
    WriteUInt32BigEndian(header, 0, width);
    WriteUInt32BigEndian(header, 4, height);
    header[8] := 8;
    header[9] := 6;
    header[10] := 0;
    header[11] := 0;
    header[12] := 0;
  }

  method WriteFile(table: array<Word>, header: seq<byte>, zlib: seq<byte>, ghost crc: Check) returns (png: seq<byte>)
    requires IsTable(table) && IsCrc32(crc) && |header| == 13 && |zlib| <= MAX_INT32
    ensures png == ThreeChunkFile(header, zlib, crc)
  {
    var output := new MemoryStream();
    output.Write(SIGNATURE);
    WriteChunk(table, output, IHDR, header, crc);
    WriteChunk(table, output, IDAT, zlib, crc);
    WriteChunk(table, output, IEND, [], crc);
    png := output.contents;
    assert [] + SIGNATURE == SIGNATURE;
  }

  method EncodeRgba8Png(table: array<Word>, pixels: seq<byte>, width: nat, height: nat, ghost crc: Check)
    returns (png: seq<byte>)
    requires IsTable(table) && IsCrc32(crc)
    requires 1 <= width <= MAX_DIMENSION && 1 <= height <= MAX_DIMENSION && |pixels| == height * (width * 4)
    ensures |pixels| == Size(height, width * 4)
    ensures png == Encode(pixels, width, height, crc)
  {
    SizeIsProduct(height, width * 4);
    var scanlines := RawScanlines(pixels, width, height);
    var raw := scanlines[..];
    FilterZeroRows(pixels, width * 4, height, ZeroRow(width * 4));
    assert raw == UnfilteredRaw(pixels, width, height);
    StoredZlibFits(raw, width, height);
    var header := HeaderBytes(width, height);
    var zlib := ZlibStored(raw);
    png := WriteFile(table, header[..], zlib, crc);
  }
}
