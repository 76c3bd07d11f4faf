/**
 Unfiltering byte by byte: each byte of the image is what its filter makes of its
 filtered value and of the neighbours it has in the image.
 */
module ScanlineBytes {
  import opened Bytes
  import opened ScanlineFilter

  /** The reconstruction of one byte as section 6 of RFC 2083 has it, from its
      filtered value and its reconstructed neighbours. */
  predicate IsReconstructed(filter: byte, value: byte, left: byte, above: byte, aboveLeft: byte, result: byte) {
    match filter
    case 0 => result == value
    case 1 => result == (value + left) % 256
    case 2 => result == (value + above) % 256
    case 3 => result == (value + (left + above) / 2) % 256
    case 4 => result == (value + PaethPredictor(left, above, aboveLeft)) % 256
    case _ => false
  }

  lemma RowByte(filter: byte, line: seq<byte>, prev: seq<byte>, x: nat)
    requires filter <= 4 && x < |line| == |prev|
    ensures var row := UnfilterRow(filter, line, prev, |line|);
            IsReconstructed(filter, line[x], if x >= 4 then row[x - 4] else 0, prev[x],
                            if x >= 4 then prev[x - 4] else 0, row[x])
  {
    UnfilterRowAt(filter, line, prev, |line|, x);
  }

  /** The byte at column x of row y of an image, zero left of it and above it. */
  function ByteAt(pixels: seq<byte>, stride: nat, h: nat, y: int, x: int): byte
    requires |pixels| == Size(h, stride) && y < h && x < stride
  {
    if y < 0 || x < 0 then 0
    else
      RowInside(y, h, stride);
      pixels[Size(y, stride) + x]
  }

  lemma {:induction false} RowInside(y: nat, h: nat, stride: nat)
    requires y < h
    ensures Size(y, stride) + stride <= Size(h, stride)
  {
    if y < h - 1 { RowInside(y, h - 1, stride); }
  }

  lemma ByteBelow(row: seq<byte>, rest: seq<byte>, stride: nat, h: nat, y: nat, x: int)
    requires |row| == stride && |rest| == Size(h, stride) && y < h && x < stride
    ensures |row + rest| == Size(h + 1, stride)
    ensures ByteAt(row + rest, stride, h + 1, y + 1, x) == ByteAt(rest, stride, h, y, x)
  {
    RowInside(y, h, stride);
  }

  lemma ByteOfFirst(row: seq<byte>, rest: seq<byte>, stride: nat, h: nat, x: int)
    requires |row| == stride && |rest| == Size(h, stride) && x < stride
    ensures |row + rest| == Size(h + 1, stride)
    ensures ByteAt(row + rest, stride, h + 1, 0, x) == if x < 0 then 0 else row[x]
  {
  }

  /** What stands above row y: the row before it, or `prev`. */
  function AboveAt(pixels: seq<byte>, stride: nat, h: nat, prev: seq<byte>, y: nat, x: int): byte
    requires |pixels| == Size(h, stride) && |prev| == stride && y < h && x < stride
  {
    if x < 0 then 0 else if y == 0 then prev[x] else ByteAt(pixels, stride, h, y - 1, x)
  }

  /** Byte x of row y is reconstructed from its own filter, its filtered value and
      the neighbours to the left, above and above left in the image. */
  predicate RightAt(raw: seq<byte>, pixels: seq<byte>, stride: nat, h: nat, prev: seq<byte>, y: nat, x: nat)
    requires |raw| == Size(h, stride + 1) && |pixels| == Size(h, stride) && |prev| == stride && y < h && x < stride
  {
    IsReconstructed(ByteAt(raw, stride + 1, h, y, 0), ByteAt(raw, stride + 1, h, y, 1 + x),
                    ByteAt(pixels, stride, h, y, x - 4), AboveAt(pixels, stride, h, prev, y, x),
                    AboveAt(pixels, stride, h, prev, y, x - 4), ByteAt(pixels, stride, h, y, x))
  }

  lemma RightFurtherDown(raw: seq<byte>, h: nat, stride: nat, prev: seq<byte>, row: seq<byte>, rest: seq<byte>, y: nat,
                         x: nat)
    requires |raw| == Size(h + 1, stride + 1) && |row| == |prev| == stride && |rest| == Size(h, stride)
    requires y < h && x < stride && |raw[stride + 1..]| == Size(h, stride + 1)
    requires RightAt(raw[stride + 1..], rest, stride, h, row, y, x)
    ensures |row + rest| == Size(h + 1, stride) && RightAt(raw, row + rest, stride, h + 1, prev, y + 1, x)
  {
    var line, tail := raw[..stride + 1], raw[stride + 1..];
    assert raw == line + tail;
    ByteBelow(line, tail, stride + 1, h, y, 0);
    ByteBelow(line, tail, stride + 1, h, y, 1 + x);
    ByteBelow(row, rest, stride, h, y, x);
    ByteBelow(row, rest, stride, h, y, x - 4);
    if y == 0 {
      ByteOfFirst(row, rest, stride, h, x);
      ByteOfFirst(row, rest, stride, h, x - 4);
    } else {
      ByteBelow(row, rest, stride, h, y - 1, x);
      ByteBelow(row, rest, stride, h, y - 1, x - 4);
    }
  }

  lemma RightInFirst(raw: seq<byte>, h: nat, stride: nat, prev: seq<byte>, rest: seq<byte>, x: nat)
    requires |raw| == Size(h + 1, stride + 1) && |prev| == stride && raw[0] <= 4 && x < stride
             && |rest| == Size(h, stride)
    ensures var row := UnfilterRow(raw[0], raw[1..stride + 1], prev, stride);
            |row + rest| == Size(h + 1, stride) && RightAt(raw, row + rest, stride, h + 1, prev, 0, x)
  {
    var row := UnfilterRow(raw[0], raw[1..stride + 1], prev, stride);
    RowByte(raw[0], raw[1..stride + 1], prev, x);
    ByteOfFirst(row, rest, stride, h, x);
    ByteOfFirst(row, rest, stride, h, x - 4);
  }

  lemma FirstRow(raw: seq<byte>, h: nat, stride: nat, prev: seq<byte>) returns (row: seq<byte>, rest: seq<byte>)
    requires h > 0 && |prev| == stride && |raw| == Size(h, stride + 1) && Unfilter(raw, stride, prev).Ok?
    ensures |raw| >= stride + 1 && raw[0] <= 4 && |raw[stride + 1..]| == Size(h - 1, stride + 1)
    ensures row == UnfilterRow(raw[0], raw[1..stride + 1], prev, stride) && |rest| == Size(h - 1, stride)
    ensures Unfilter(raw[stride + 1..], stride, row) == Ok(rest) && Unfilter(raw, stride, prev) == Ok(row + rest)
  {
    UnfilterParts(raw, h, stride, prev);
    row := UnfilterRow(raw[0], raw[1..stride + 1], prev, stride);
    rest := Unfilter(raw[stride + 1..], stride, row).value;
    FilterUndoesUnfilter(raw[stride + 1..], h - 1, stride, row);
  }

  /** Every byte of an unfiltered image is the right one. */
  lemma {:induction false} UnfilteredBytes(raw: seq<byte>, h: nat, stride: nat, prev: seq<byte>, pixels: seq<byte>,
                                           y: nat, x: nat)
    requires |prev| == stride && |raw| == Size(h, stride + 1) && Unfilter(raw, stride, prev) == Ok(pixels)
    requires y < h && x < stride
    ensures |pixels| == Size(h, stride) && RightAt(raw, pixels, stride, h, prev, y, x)
    decreases h
  {
    var row, rest := FirstRow(raw, h, stride, prev);
    if y == 0 {
      RightInFirst(raw, h - 1, stride, prev, rest, x);
    } else {
      UnfilteredBytes(raw[stride + 1..], h - 1, stride, row, rest, y - 1, x);
      RightFurtherDown(raw, h - 1, stride, prev, row, rest, y - 1, x);
    }
  }
}
