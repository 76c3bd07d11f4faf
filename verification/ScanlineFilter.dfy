/**
 PNG scanline filters for four-byte pixels (section 6 of RFC 2083): removing
 any per-row choice of the five filters gives the original pixels back.
 */
module ScanlineFilter {
  import opened Bytes

  const PIXEL_BYTES := 4

  datatype FilterError = UnsupportedFilter

  function Abs(x: int): nat { if x < 0 then -x else x }

  function PaethPredictor(left: int, above: int, aboveLeft: int): int {
    var estimate := left + above - aboveLeft;
    var distanceLeft := Abs(estimate - left);
    var distanceAbove := Abs(estimate - above);
    var distanceAboveLeft := Abs(estimate - aboveLeft);
    if distanceLeft <= distanceAbove && distanceLeft <= distanceAboveLeft then left
    else if distanceAbove <= distanceAboveLeft then above
    else aboveLeft
  }

  /** The predictor is the neighbour nearest to the estimate, the first of left,
      above, above-left among equally near ones. */
  lemma PaethNearest(left: int, above: int, aboveLeft: int)
    ensures var estimate := left + above - aboveLeft;
            var candidates := [left, above, aboveLeft];
            exists k :: 0 <= k < 3 && candidates[k] == PaethPredictor(left, above, aboveLeft)
              && (forall j :: 0 <= j < 3 ==> Abs(estimate - candidates[k]) <= Abs(estimate - candidates[j]))
              && (forall j :: 0 <= j < k ==> Abs(estimate - candidates[k]) < Abs(estimate - candidates[j]))
  {
    var estimate := left + above - aboveLeft;
    var candidates := [left, above, aboveLeft];
    var k := if Abs(estimate - left) <= Abs(estimate - above) && Abs(estimate - left) <= Abs(estimate - aboveLeft)
               then 0
             else if Abs(estimate - above) <= Abs(estimate - aboveLeft) then 1 else 2;
    assert candidates[k] == PaethPredictor(left, above, aboveLeft);
  }

  function Predict(filter: byte, left: byte, above: byte, aboveLeft: byte): int
    requires filter <= 4
  {
    match filter
    case 0 => 0
    case 1 => left
    case 2 => above
    case 3 => (left + above) / 2
    case _ => PaethPredictor(left, above, aboveLeft)
  }

  /** Reconstruction of the byte at `x` from its filtered value. */
  function Reconstruct(filter: byte, value: byte, row: seq<byte>, prev: seq<byte>): byte
    requires filter <= 4 && |row| < |prev|
  {
    var x := |row|;
    (value + Predict(filter, if x >= PIXEL_BYTES then row[x - PIXEL_BYTES] else 0, prev[x],
                     if x >= PIXEL_BYTES then prev[x - PIXEL_BYTES] else 0)) % 256
  }

  /** The first n bytes of a row. */
  function UnfilterRow(filter: byte, line: seq<byte>, prev: seq<byte>, n: nat): (row: seq<byte>)
    requires filter <= 4 && n <= |line| == |prev|
    ensures |row| == n
  {
    if n == 0 then []
    else
      var row := UnfilterRow(filter, line, prev, n - 1);
      row + [Reconstruct(filter, line[n - 1], row, prev)]
  }

  function FilterRow(filter: byte, row: seq<byte>, prev: seq<byte>, n: nat): (line: seq<byte>)
    requires filter <= 4 && n <= |row| == |prev|
    ensures |line| == n
  {
    if n == 0 then []
    else
      var x := n - 1;
      FilterRow(filter, row, prev, x) +
      [(row[x] - Predict(filter, if x >= PIXEL_BYTES then row[x - PIXEL_BYTES] else 0, prev[x],
                         if x >= PIXEL_BYTES then prev[x - PIXEL_BYTES] else 0)) % 256]
  }

  function ZeroRow(n: nat): (row: seq<byte>)
    ensures |row| == n && forall i :: 0 <= i < n ==> row[i] == 0
  {
    if n == 0 then [] else ZeroRow(n - 1) + [0]
  }

  /** All rows of `raw`, each one filter byte and `stride` filtered bytes. */
  function Unfilter(raw: seq<byte>, stride: nat, prev: seq<byte>): Result<seq<byte>, FilterError>
    requires |prev| == stride
    decreases |raw|
  {
    if |raw| < stride + 1 then Ok([])
    else if raw[0] > 4 then Err(UnsupportedFilter)
    else
      var row := UnfilterRow(raw[0], raw[1..stride + 1], prev, stride);
      match Unfilter(raw[stride + 1..], stride, row)
      case Ok(rest) => Ok(row + rest)
      case Err(e) => Err(e)
  }

  lemma Product(n: nat, m: nat)
    requires n > 0
    ensures n * m == m + (n - 1) * m
  {
  }

  /** n rows of m bytes. */
  function Size(n: nat, m: nat): nat { if n == 0 then 0 else m + Size(n - 1, m) }

  lemma {:induction false} SizeIsProduct(n: nat, m: nat)
    ensures Size(n, m) == n * m
  {
    if n > 0 {
      SizeIsProduct(n - 1, m);
      Product(n, m);
    }
  }

  predicate Supported(filters: seq<byte>) { forall i :: 0 <= i < |filters| ==> filters[i] <= 4 }

  /** The filtered form of an image, row i with filter `filters[i]`. */
  function Filter(pixels: seq<byte>, filters: seq<byte>, stride: nat, prev: seq<byte>): seq<byte>
    requires |prev| == stride && Supported(filters) && |pixels| == Size(|filters|, stride)
    decreases |filters|
  {
    if filters == [] then []
    else
      [filters[0]] + FilterRow(filters[0], pixels[..stride], prev, stride)
      + Filter(pixels[stride..], filters[1..], stride, pixels[..stride])
  }

  lemma ModInverse(v: int, p: int)
    requires 0 <= v < 256
    ensures ((v - p) % 256 + p) % 256 == v
  {
  }

  lemma ModInverseBack(v: int, p: int)
    requires 0 <= v < 256
    ensures ((v + p) % 256 - p) % 256 == v
  {
  }

  lemma {:induction false} RowRoundTrip(filter: byte, row: seq<byte>, prev: seq<byte>, n: nat)
    requires filter <= 4 && n <= |row| == |prev|
    ensures UnfilterRow(filter, FilterRow(filter, row, prev, |row|), prev, n) == row[..n]
  {
    if n > 0 {
      var x := n - 1;
      RowRoundTrip(filter, row, prev, x);
      FilterRowAt(filter, row, prev, |row|, x);
      var p := Predict(filter, if x >= PIXEL_BYTES then row[x - PIXEL_BYTES] else 0, prev[x],
                       if x >= PIXEL_BYTES then prev[x - PIXEL_BYTES] else 0);
      ModInverse(row[x], p);
      assert row[..n] == row[..x] + [row[x]];
    }
  }

  lemma {:induction false} FilterRowAt(filter: byte, row: seq<byte>, prev: seq<byte>, n: nat, x: nat)
    requires filter <= 4 && x < n <= |row| == |prev|
    ensures FilterRow(filter, row, prev, n)[x] ==
      (row[x] - Predict(filter, if x >= PIXEL_BYTES then row[x - PIXEL_BYTES] else 0, prev[x],
                        if x >= PIXEL_BYTES then prev[x - PIXEL_BYTES] else 0)) % 256
  {
    if x < n - 1 { FilterRowAt(filter, row, prev, n - 1, x); }
  }

  lemma FilterOfParts(row: seq<byte>, rest: seq<byte>, filter: byte, filters: seq<byte>, stride: nat, prev: seq<byte>)
    requires |row| == |prev| == stride && filter <= 4 && Supported(filters) && |rest| == Size(|filters|, stride)
    ensures Supported([filter] + filters) && |row + rest| == Size(|[filter] + filters|, stride)
    ensures Filter(row + rest, [filter] + filters, stride, prev)
         == [filter] + FilterRow(filter, row, prev, stride) + Filter(rest, filters, stride, row)
  {
    var pixels, all := row + rest, [filter] + filters;
    assert pixels[..stride] == row && pixels[stride..] == rest && all[1..] == filters && all[0] == filter;
  }

  lemma UnfilterOfParts(filter: byte, line: seq<byte>, tail: seq<byte>, stride: nat, prev: seq<byte>, rest: seq<byte>)
    requires |line| == |prev| == stride && filter <= 4
    requires Unfilter(tail, stride, UnfilterRow(filter, line, prev, stride)) == Ok(rest)
    ensures Unfilter([filter] + line + tail, stride, prev) == Ok(UnfilterRow(filter, line, prev, stride) + rest)
  {
    var raw := [filter] + line + tail;
    assert raw[1..stride + 1] == line && raw[stride + 1..] == tail;
  }

  /** Unfiltering undoes filtering for every image and every choice of filters. */
  lemma {:induction false} UnfilterUndoesFilter(pixels: seq<byte>, filters: seq<byte>, stride: nat, prev: seq<byte>)
    requires |prev| == stride && Supported(filters) && |pixels| == Size(|filters|, stride)
    ensures |Filter(pixels, filters, stride, prev)| == Size(|filters|, stride + 1)
    ensures Unfilter(Filter(pixels, filters, stride, prev), stride, prev) == Ok(pixels)
    decreases |filters|
  {
    if filters == [] {
      assert pixels == [];
    } else {
      var row, rest := pixels[..stride], pixels[stride..];
      UnfilterUndoesFilter(rest, filters[1..], stride, row);
      RowRoundTrip(filters[0], row, prev, stride);
      var line := FilterRow(filters[0], row, prev, stride);
      assert row[..stride] == row && row + rest == pixels && [filters[0]] + filters[1..] == filters;
      FilterOfParts(row, rest, filters[0], filters[1..], stride, prev);
      UnfilterOfParts(filters[0], line, Filter(rest, filters[1..], stride, row), stride, prev, rest);
    }
  }

  function FilterBytes(raw: seq<byte>, stride: nat): seq<byte>
    decreases |raw|
  {
    if |raw| < stride + 1 then [] else [raw[0]] + FilterBytes(raw[stride + 1..], stride)
  }

  lemma ByteBack(filter: byte, line: seq<byte>, prev: seq<byte>, row: seq<byte>, x: nat)
    requires filter <= 4 && x < |line| == |prev| == |row| && row == UnfilterRow(filter, line, prev, |line|)
    ensures (row[x] - Predict(filter, if x >= PIXEL_BYTES then row[x - PIXEL_BYTES] else 0, prev[x],
                              if x >= PIXEL_BYTES then prev[x - PIXEL_BYTES] else 0)) % 256 == line[x]
  {
    UnfilterRowAt(filter, line, prev, |line|, x);
    ModInverseBack(line[x], Predict(filter, if x >= PIXEL_BYTES then row[x - PIXEL_BYTES] else 0, prev[x],
                                    if x >= PIXEL_BYTES then prev[x - PIXEL_BYTES] else 0));
  }

  lemma {:induction false} RowRoundTripBack(filter: byte, line: seq<byte>, prev: seq<byte>, row: seq<byte>, n: nat)
    requires filter <= 4 && n <= |line| == |prev| == |row| && row == UnfilterRow(filter, line, prev, |line|)
    ensures FilterRow(filter, row, prev, n) == line[..n]
  {
    if n > 0 {
      var x := n - 1;
      RowRoundTripBack(filter, line, prev, row, x);
      ByteBack(filter, line, prev, row, x);
      assert line[..n] == line[..x] + [line[x]];
    }
  }

  lemma {:induction false} UnfilterRowAt(filter: byte, line: seq<byte>, prev: seq<byte>, n: nat, x: nat)
    requires filter <= 4 && x < n <= |line| == |prev|
    ensures var row := UnfilterRow(filter, line, prev, n);
            row[..x] == UnfilterRow(filter, line, prev, x) && row[x] == Reconstruct(filter, line[x], row[..x], prev)
  {
    var row, shorter := UnfilterRow(filter, line, prev, n), UnfilterRow(filter, line, prev, n - 1);
    if x < n - 1 {
      UnfilterRowAt(filter, line, prev, n - 1, x);
      assert row[..x] == shorter[..x];
    } else {
      assert row[..x] == shorter;
    }
  }

  lemma RowFiltersBack(filter: byte, line: seq<byte>, tail: seq<byte>, rest: seq<byte>, filters: seq<byte>, stride: nat,
                       prev: seq<byte>)
    requires |line| == |prev| == stride && filter <= 4 && Supported(filters) && |rest| == Size(|filters|, stride)
    requires Filter(rest, filters, stride, UnfilterRow(filter, line, prev, stride)) == tail
    ensures var row := UnfilterRow(filter, line, prev, stride);
            && Supported([filter] + filters) && |row + rest| == Size(|[filter] + filters|, stride)
            && Filter(row + rest, [filter] + filters, stride, prev) == [filter] + line + tail
  {
    var row := UnfilterRow(filter, line, prev, stride);
    RowRoundTripBack(filter, line, prev, row, stride);
    assert line[..stride] == line;
    FilterOfParts(row, rest, filter, filters, stride, prev);
  }

  /** What unfiltering makes of the first row and of the others. */
  lemma UnfilterParts(raw: seq<byte>, h: nat, stride: nat, prev: seq<byte>)
    requires h > 0 && |prev| == stride && |raw| == Size(h, stride + 1) && Unfilter(raw, stride, prev).Ok?
    ensures |raw| >= stride + 1 && raw[0] <= 4 && |raw[stride + 1..]| == Size(h - 1, stride + 1)
    ensures var tail, row := raw[stride + 1..], UnfilterRow(raw[0], raw[1..stride + 1], prev, stride);
            && Unfilter(tail, stride, row).Ok?
            && Unfilter(raw, stride, prev).value == row + Unfilter(tail, stride, row).value
    ensures FilterBytes(raw, stride) == [raw[0]] + FilterBytes(raw[stride + 1..], stride)
    ensures raw == [raw[0]] + raw[1..stride + 1] + raw[stride + 1..]
  {
  }

  /** Filtering `pixels` with `filters` gives `raw`, h rows of it. */
  ghost predicate FiltersTo(pixels: seq<byte>, filters: seq<byte>, raw: seq<byte>, h: nat, stride: nat,
                            prev: seq<byte>) {
    && |prev| == stride && |pixels| == Size(h, stride) && |filters| == h && Supported(filters)
    && Filter(pixels, filters, stride, prev) == raw
  }

  lemma FiltersToMore(filter: byte, line: seq<byte>, tail: seq<byte>, rest: seq<byte>, filters: seq<byte>, h: nat,
                      stride: nat, prev: seq<byte>)
    requires |line| == |prev| == stride && filter <= 4
    requires FiltersTo(rest, filters, tail, h, stride, UnfilterRow(filter, line, prev, stride))
    ensures FiltersTo(UnfilterRow(filter, line, prev, stride) + rest, [filter] + filters, [filter] + line + tail, h + 1,
                      stride, prev)
  {
    RowFiltersBack(filter, line, tail, rest, filters, stride, prev);
  }

  /** Filtering undoes unfiltering: no information is lost either way. */
  lemma {:induction false} FilterUndoesUnfilter(raw: seq<byte>, h: nat, stride: nat, prev: seq<byte>)
    requires |prev| == stride && |raw| == Size(h, stride + 1) && Unfilter(raw, stride, prev).Ok?
    ensures FiltersTo(Unfilter(raw, stride, prev).value, FilterBytes(raw, stride), raw, h, stride, prev)
    decreases h
  {
    if h > 0 {
      UnfilterParts(raw, h, stride, prev);
      var line, tail := raw[1..stride + 1], raw[stride + 1..];
      var row := UnfilterRow(raw[0], line, prev, stride);
      FilterUndoesUnfilter(tail, h - 1, stride, row);
      var rest, filters := Unfilter(tail, stride, row).value, FilterBytes(tail, stride);
      FiltersToMore(raw[0], line, tail, rest, filters, h - 1, stride, prev);
    }
  }

  // ------------------------------------------------------------------
  // In place.

  /** One scanline, reconstructed into the pixel buffer just after the row above
      it (`prev`, zeros for the first row). */
  method UnfilterLine(line: seq<byte>, filter: byte, first: bool, pixels: array<byte>, rowStart: nat, stride: nat,
                      ghost prev: seq<byte>)
    requires filter <= 4 && |line| == |prev| == stride && rowStart + stride <= pixels.Length
    requires if first then prev == ZeroRow(stride)
             else stride <= rowStart && prev == pixels[..][..rowStart][rowStart - stride..rowStart]
    modifies pixels
    ensures pixels[rowStart..rowStart + stride] == UnfilterRow(filter, line, prev, stride)
    ensures pixels[..rowStart] == old(pixels[..rowStart])
  {
    for x := 0 to stride
      invariant pixels[rowStart..rowStart + x] == UnfilterRow(filter, line, prev, x)
      invariant pixels[..rowStart] == old(pixels[..rowStart])
    {
      var left: byte := if x >= 4 then pixels[rowStart + x - 4] else 0;
      var above: byte := if !first then pixels[rowStart - stride + x] else 0;
      var aboveLeft: byte := if !first && x >= 4 then pixels[rowStart - stride + x - 4] else 0;
      ReadsNeighbours(pixels[..], rowStart, x, stride, first, prev);
      var value := (line[x] + Predict(filter, left, above, aboveLeft)) % 256;
      assert value == Reconstruct(filter, line[x], pixels[rowStart..rowStart + x], prev);
      WriteGrowsRow(pixels[..], rowStart, x, value);
      pixels[rowStart + x] := value;
    }
  }

  /** The neighbours in the buffer are those of the row so far and the row above. */
  lemma ReadsNeighbours(buffer: seq<byte>, rowStart: nat, x: nat, stride: nat, first: bool, prev: seq<byte>)
    requires x < stride == |prev| && rowStart + stride <= |buffer|
    requires if first then prev == ZeroRow(stride)
             else stride <= rowStart && prev == buffer[..rowStart][rowStart - stride..rowStart]
    ensures x >= 4 ==> buffer[rowStart + x - 4] == buffer[rowStart..rowStart + x][x - 4]
    ensures prev[x] == if !first then buffer[rowStart - stride + x] else 0
    ensures x >= 4 ==> prev[x - 4] == if !first then buffer[rowStart - stride + x - 4] else 0
  {
  }

  lemma WriteGrowsRow(buffer: seq<byte>, rowStart: nat, x: nat, value: byte)
    requires rowStart + x < |buffer|
    ensures var after := buffer[rowStart + x := value];
            && after[rowStart..rowStart + x + 1] == buffer[rowStart..rowStart + x] + [value]
            && after[..rowStart] == buffer[..rowStart]
  {
  }

  function Prepend(pixels: seq<byte>, rest: Result<seq<byte>, FilterError>): Result<seq<byte>, FilterError> {
    if rest.Ok? then Ok(pixels + rest.value) else rest
  }

  lemma PrependNothing(r: Result<seq<byte>, FilterError>)
    ensures Prepend([], r) == r
  {
    if r.Ok? { assert [] + r.value == r.value; }
  }

  lemma PrependStep(done: seq<byte>, raw: seq<byte>, stride: nat, prev: seq<byte>)
    requires |prev| == stride && |raw| >= stride + 1 && raw[0] <= 4
    ensures var row := UnfilterRow(raw[0], raw[1..stride + 1], prev, stride);
            Prepend(done, Unfilter(raw, stride, prev)) == Prepend(done + row, Unfilter(raw[stride + 1..], stride, row))
  {
    var row := UnfilterRow(raw[0], raw[1..stride + 1], prev, stride);
    var rest := Unfilter(raw[stride + 1..], stride, row);
    if rest.Ok? { assert done + (row + rest.value) == (done + row) + rest.value; }
  }

  lemma SuffixParts(raw: seq<byte>, from: nat, stride: nat)
    requires from + 1 + stride <= |raw|
    ensures raw[from..][0] == raw[from] && raw[from..][1..stride + 1] == raw[from + 1..from + 1 + stride]
    ensures raw[from..][stride + 1..] == raw[from + 1 + stride..]
  {
  }

  /** The rows before `rowStart` are done: what is in the buffer, followed by
      what the rest of `raw` unfilters to, is what all of it unfilters to. */
  ghost predicate RowsDone(buffer: seq<byte>, raw: seq<byte>, rawIndex: nat, rowStart: nat, stride: nat,
                           prev: seq<byte>)
    requires rawIndex <= |raw| && rowStart <= |buffer|
  {
    && |prev| == stride
    && (if rowStart == 0 then prev == ZeroRow(stride)
        else stride <= rowStart && prev == buffer[..rowStart][rowStart - stride..rowStart])
    && Prepend(buffer[..rowStart], Unfilter(raw[rawIndex..], stride, prev)) == Unfilter(raw, stride, ZeroRow(stride))
  }

  lemma NoRowDone(buffer: seq<byte>, raw: seq<byte>, stride: nat)
    ensures RowsDone(buffer, raw, 0, 0, stride, ZeroRow(stride))
  {
    assert raw[0..] == raw;
    PrependNothing(Unfilter(raw, stride, ZeroRow(stride)));
  }

  lemma OneMoreRowDone(before: seq<byte>, after: seq<byte>, raw: seq<byte>, rawIndex: nat, rowStart: nat, stride: nat,
                       prev: seq<byte>, row: seq<byte>)
    requires rawIndex + 1 + stride <= |raw| && rowStart + stride <= |before| == |after| && stride > 0
    requires RowsDone(before, raw, rawIndex, rowStart, stride, prev) && raw[rawIndex] <= 4
    requires row == UnfilterRow(raw[rawIndex], raw[rawIndex + 1..rawIndex + 1 + stride], prev, stride)
    requires after[..rowStart] == before[..rowStart] && after[rowStart..rowStart + stride] == row
    ensures RowsDone(after, raw, rawIndex + 1 + stride, rowStart + stride, stride, row)
  {
    SuffixParts(raw, rawIndex, stride);
    PrependStep(before[..rowStart], raw[rawIndex..], stride, prev);
    assert after[..rowStart + stride] == before[..rowStart] + row;
  }

  lemma AllRowsDone(buffer: seq<byte>, raw: seq<byte>, stride: nat, prev: seq<byte>)
    requires RowsDone(buffer, raw, |raw|, |buffer|, stride, prev)
    ensures Unfilter(raw, stride, ZeroRow(stride)) == Ok(buffer)
  {
    assert raw[|raw|..] == [] && buffer[..|buffer|] == buffer && buffer + [] == buffer;
  }

  lemma BadRow(buffer: seq<byte>, raw: seq<byte>, rawIndex: nat, rowStart: nat, stride: nat, prev: seq<byte>)
    requires rawIndex + 1 + stride <= |raw| && rowStart <= |buffer|
    requires RowsDone(buffer, raw, rawIndex, rowStart, stride, prev) && raw[rawIndex] > 4
    ensures Unfilter(raw, stride, ZeroRow(stride)) == Err(UnsupportedFilter)
  {
    SuffixParts(raw, rawIndex, stride);
  }

  /** `left` rows are still to be done. */
  ghost predicate AtRow(buffer: seq<byte>, raw: seq<byte>, rawIndex: nat, rowStart: nat, stride: nat, left: nat,
                        prev: seq<byte>) {
    && rowStart + Size(left, stride) == |buffer| && rawIndex + Size(left, stride + 1) == |raw|
    && RowsDone(buffer, raw, rawIndex, rowStart, stride, prev)
  }

  lemma RoomForRow(buffer: seq<byte>, raw: seq<byte>, rawIndex: nat, rowStart: nat, stride: nat, left: nat,
                   prev: seq<byte>)
    requires left > 0 && AtRow(buffer, raw, rawIndex, rowStart, stride, left, prev)
    ensures rawIndex + 1 + stride <= |raw| && rowStart + stride <= |buffer| && |prev| == stride
    ensures rawIndex + 1 + stride + Size(left - 1, stride + 1) == |raw|
    ensures rowStart + stride + Size(left - 1, stride) == |buffer|
    ensures RowsDone(buffer, raw, rawIndex, rowStart, stride, prev)
  {
  }

  /** The next row, into the pixel buffer, unless its filter is unsupported. */
  method UnfilterNextRow(raw: seq<byte>, rawIndex: nat, rowStart: nat, first: bool, stride: nat, pixels: array<byte>,
                         ghost left: nat, ghost prev: seq<byte>) returns (ghost row: seq<byte>, ok: bool)
    requires left > 0 && AtRow(pixels[..], raw, rawIndex, rowStart, stride, left, prev)
    requires stride > 0 && (first <==> rowStart == 0)
    modifies pixels
    ensures !ok ==> Unfilter(raw, stride, ZeroRow(stride)) == Err(UnsupportedFilter)
    ensures ok ==> AtRow(pixels[..], raw, rawIndex + 1 + stride, rowStart + stride, stride, left - 1, row)
  {
    RoomForRow(pixels[..], raw, rawIndex, rowStart, stride, left, prev);
    var filter := raw[rawIndex];
    ghost var before := pixels[..];
    row := prev;
    if filter > 4 {
      BadRow(before, raw, rawIndex, rowStart, stride, prev);
      return row, false;
    }
    var line := raw[rawIndex + 1..rawIndex + 1 + stride];
    UnfilterLine(line, filter, first, pixels, rowStart, stride, prev);
    row := UnfilterRow(filter, line, prev, stride);
    assert pixels[..][..rowStart] == pixels[..rowStart] && before[..rowStart] == pixels[..rowStart];
    OneMoreRowDone(before, pixels[..], raw, rawIndex, rowStart, stride, prev, row);
    ok := true;
  }

  /** All rows, one after the other, into the pixel buffer. */
  method UnfilterRows(raw: seq<byte>, stride: nat, height: nat, pixels: array<byte>) returns (ok: bool)
    requires stride > 0 && |raw| == Size(height, stride + 1) && pixels.Length == Size(height, stride)
    modifies pixels
    ensures Unfilter(raw, stride, ZeroRow(stride)) == if ok then Ok(pixels[..]) else Err(UnsupportedFilter)
  {
    var rawIndex: nat, rowStart: nat := 0, 0;
    ghost var prev := ZeroRow(stride);
    NoRowDone(pixels[..], raw, stride);
    for y := 0 to height
      invariant AtRow(pixels[..], raw, rawIndex, rowStart, stride, height - y, prev)
      invariant rowStart == 0 <==> y == 0
    {
      prev, ok := UnfilterNextRow(raw, rawIndex, rowStart, y == 0, stride, pixels, height - y, prev);
      if !ok { return; }
      rawIndex, rowStart := rawIndex + 1 + stride, rowStart + stride;
    }
    AllRowsDone(pixels[..], raw, stride, prev);
    ok := true;
  }

  /** The whole image, in place in a fresh pixel buffer. */
  method UnfilterRgba(raw: seq<byte>, width: nat, height: nat) returns (r: Result<array<byte>, FilterError>)
    requires width >= 1 && |raw| == height * (width * 4 + 1)
    ensures r.Ok? ==> Unfilter(raw, width * 4, ZeroRow(width * 4)) == Ok(r.value[..])
    ensures r.Err? ==> Unfilter(raw, width * 4, ZeroRow(width * 4)) == Err(r.error)
  {
    var stride := width * 4;
    SizeIsProduct(height, stride);
    SizeIsProduct(height, stride + 1);
    var pixels := new byte[Size(height, stride)](_ => 0);
    var ok := UnfilterRows(raw, stride, height, pixels);
    r := if ok then Ok(pixels) else Err(UnsupportedFilter);
  }
}
