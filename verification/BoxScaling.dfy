/**
 A whole image scaled pixel by pixel, and the generator from file to file:
 decode, scale, encode.
 */
module BoxScaling {
  import opened Bytes
  import opened AxisWeights
  import opened ScanlineFilter
  import opened Png
  import opened BoxFilter

  predicate GoodTarget(targetWidth: nat, targetHeight: nat) { targetWidth >= 1 && targetHeight >= 1 }

  lemma RowsFit(p: Image, targetWidth: nat, targetHeight: nat, ox: nat, oy: nat)
    requires IsPicture(p) && ox < targetWidth && oy < targetHeight
    ensures IsWindow(p, targetWidth, targetHeight, ox, oy, RowOf(p.height, targetHeight, oy),
                     RowOf(p.width, targetWidth, ox),
                     FirstPixel(p.width, targetWidth, ox), FirstPixel(p.height, targetHeight, oy))
    ensures WindowInside(p, RowOf(p.height, targetHeight, oy), RowOf(p.width, targetWidth, ox),
                         FirstPixel(p.width, targetWidth, ox), FirstPixel(p.height, targetHeight, oy))
  {
    WindowFacts(p, targetWidth, targetHeight, ox, oy, RowOf(p.height, targetHeight, oy),
                RowOf(p.width, targetWidth, ox),
                FirstPixel(p.width, targetWidth, ox), FirstPixel(p.height, targetHeight, oy));
  }

  /** The target pixel (ox, oy). */
  function ScaledAt(p: Image, targetWidth: nat, targetHeight: nat, ox: nat, oy: nat): (pixel: seq<byte>)
    requires IsPicture(p) && ox < targetWidth && oy < targetHeight
    ensures |pixel| == 4
  {
    RowsFit(p, targetWidth, targetHeight, ox, oy);
    ScaledPixel(p, RowOf(p.height, targetHeight, oy), RowOf(p.width, targetWidth, ox),
                FirstPixel(p.width, targetWidth, ox), FirstPixel(p.height, targetHeight, oy))
  }

  function RasterRow(p: Image, targetWidth: nat, targetHeight: nat, oy: nat, n: nat): (bytes: seq<byte>)
    requires IsPicture(p) && n <= targetWidth && oy < targetHeight
    ensures |bytes| == 4 * n
  {
    if n == 0 then []
    else RasterRow(p, targetWidth, targetHeight, oy, n - 1) + ScaledAt(p, targetWidth, targetHeight, n - 1, oy)
  }

  function Raster(p: Image, targetWidth: nat, targetHeight: nat, m: nat): (bytes: seq<byte>)
    requires IsPicture(p) && m <= targetHeight
    ensures |bytes| == Size(m, targetWidth * 4)
  {
    if m == 0 then []
    else Raster(p, targetWidth, targetHeight, m - 1) + RasterRow(p, targetWidth, targetHeight, m - 1, targetWidth)
  }

  function Scaled(p: Image, targetWidth: nat, targetHeight: nat): (image: Image)
    requires IsPicture(p) && GoodTarget(targetWidth, targetHeight)
    ensures IsPicture(image) && image.width == targetWidth && image.height == targetHeight
  {
    Image(targetWidth, targetHeight, Raster(p, targetWidth, targetHeight, targetHeight))
  }

  // ------------------------------------------------------------------
  // Reading the scaled image.

  lemma {:induction false} RasterRowAt(p: Image, targetWidth: nat, targetHeight: nat, oy: nat, n: nat, x: nat, c: nat)
    requires IsPicture(p) && x < n <= targetWidth && oy < targetHeight && c < 4
    ensures RasterRow(p, targetWidth, targetHeight, oy, n)[x * 4 + c]
            == ScaledAt(p, targetWidth, targetHeight, x, oy)[c]
  {
    if x < n - 1 { RasterRowAt(p, targetWidth, targetHeight, oy, n - 1, x, c); }
  }

  lemma InFirst(a: seq<byte>, b: seq<byte>, i: nat)
    requires i < |a|
    ensures (a + b)[i] == a[i]
  {
  }

  lemma InSecond(a: seq<byte>, b: seq<byte>, i: nat)
    requires i < |b|
    ensures (a + b)[|a| + i] == b[i]
  {
  }

  lemma {:induction false} RasterAt(p: Image, targetWidth: nat, targetHeight: nat, m: nat, at: nat, x: nat, y: nat,
                                    c: nat)
    requires IsPicture(p) && x < targetWidth && y < m <= targetHeight && c < 4
    requires at == Size(y, targetWidth * 4) + x * 4 + c < Size(m, targetWidth * 4)
    ensures Raster(p, targetWidth, targetHeight, m)[at] == ScaledAt(p, targetWidth, targetHeight, x, y)[c]
  {
    var before, row := Raster(p, targetWidth, targetHeight, m - 1),
      RasterRow(p, targetWidth, targetHeight, m - 1, targetWidth);
    if y < m - 1 {
      SizeSteps(y, m - 1, targetWidth * 4);
      RasterAt(p, targetWidth, targetHeight, m - 1, at, x, y, c);
      InFirst(before, row, at);
    } else {
      RasterRowAt(p, targetWidth, targetHeight, y, targetWidth, x, c);
      InSecond(before, row, x * 4 + c);
    }
  }

  lemma {:induction false} SizeSteps(y: nat, m: nat, stride: nat)
    requires y < m
    ensures Size(y, stride) + stride <= Size(m, stride)
  {
    if y < m - 1 { SizeSteps(y, m - 1, stride); }
  }

  lemma ScaledChannel(p: Image, targetWidth: nat, targetHeight: nat, x: nat, y: nat, c: nat)
    requires IsPicture(p) && x < targetWidth && y < targetHeight && c < 4
    ensures Channel(Scaled(p, targetWidth, targetHeight), x, y, c) == ScaledAt(p, targetWidth, targetHeight, x, y)[c]
  {
    PixelInside(targetWidth, targetHeight, x, y);
    RasterAt(p, targetWidth, targetHeight, targetHeight, (y * targetWidth + x) * 4 + c, x, y, c);
  }

  // ------------------------------------------------------------------
  // What scaling keeps.

  /** Scaling invents no colour: where every visible source pixel has a value of
      colour channel c in [lo, hi], so has every visible scaled pixel. */
  lemma ColoursStayWithin(p: Image, targetWidth: nat, targetHeight: nat, x: nat, y: nat, c: nat, lo: nat, hi: nat)
    requires IsPicture(p) && x < targetWidth && y < targetHeight && c < ALPHA
    requires forall i, k :: 0 <= k < p.width && 0 <= i < p.height && Channel(p, k, i, ALPHA) != 0 ==>
               lo <= Channel(p, k, i, c) <= hi
    ensures var s := Scaled(p, targetWidth, targetHeight);
            Channel(s, x, y, ALPHA) != 0 ==> lo <= Channel(s, x, y, c) <= hi
  {
    ScaledChannel(p, targetWidth, targetHeight, x, y, ALPHA);
    ScaledChannel(p, targetWidth, targetHeight, x, y, c);
    RowsFit(p, targetWidth, targetHeight, x, y);
    var rows, columns := RowOf(p.height, targetHeight, y), RowOf(p.width, targetWidth, x);
    var x0, y0 := FirstPixel(p.width, targetWidth, x), FirstPixel(p.height, targetHeight, y);
    var alphaSum := WindowSum(p, rows, columns, x0, y0, ALPHA);
    if alphaSum > 0 {
      WindowMean(p, rows, columns, x0, y0, c, lo, hi, |rows|);
      RoundedAtMost(WindowSum(p, rows, columns, x0, y0, c), alphaSum, hi);
      RoundedAtLeast(WindowSum(p, rows, columns, x0, y0, c), alphaSum, lo);
      ClampsNeverAct(p, targetWidth, targetHeight, x, y, rows, columns, x0, y0, c);
    }
  }

  /** An opaque image stays opaque. */
  lemma OpaqueStaysOpaque(p: Image, targetWidth: nat, targetHeight: nat, x: nat, y: nat)
    requires IsPicture(p) && x < targetWidth && y < targetHeight
    requires forall i, k :: 0 <= k < p.width && 0 <= i < p.height ==> Channel(p, k, i, ALPHA) == 255
    ensures Channel(Scaled(p, targetWidth, targetHeight), x, y, ALPHA) == 255
  {
    ScaledChannel(p, targetWidth, targetHeight, x, y, ALPHA);
    RowsFit(p, targetWidth, targetHeight, x, y);
    var rows, columns := RowOf(p.height, targetHeight, y), RowOf(p.width, targetWidth, x);
    var x0, y0 := FirstPixel(p.width, targetWidth, x), FirstPixel(p.height, targetHeight, y);
    WindowFacts(p, targetWidth, targetHeight, x, y, rows, columns, x0, y0);
    WindowAlpha(p, rows, columns, x0, y0, |rows|);
    Monotone(1, p.width, p.height);
    RoundedAtLeast(WindowSum(p, rows, columns, x0, y0, ALPHA), p.width * p.height, 255);
  }

  /** A constant opaque image scales to the same constant. */
  lemma ConstantStaysConstant(p: Image, colour: seq<byte>, targetWidth: nat, targetHeight: nat, x: nat, y: nat, c: nat)
    requires IsPicture(p) && x < targetWidth && y < targetHeight && c < 4 && |colour| == 4 && colour[ALPHA] == 255
    requires forall i, k, d :: 0 <= k < p.width && 0 <= i < p.height && 0 <= d < 4 ==> Channel(p, k, i, d) == colour[d]
    ensures Channel(Scaled(p, targetWidth, targetHeight), x, y, c) == colour[c]
  {
    OpaqueStaysOpaque(p, targetWidth, targetHeight, x, y);
    if c < ALPHA { ColoursStayWithin(p, targetWidth, targetHeight, x, y, c, colour[c], colour[c]); }
  }

  lemma OnePixelWindow(p: Image, x: nat, y: nat, c: nat)
    requires IsPicture(p) && x < p.width && y < p.height && c < 4
    ensures WindowInside(p, [p.height], [p.width], x, y)
    ensures WindowSum(p, [p.height], [p.width], x, y, c)
         == Term(p.height * p.width, Channel(p, x, y, ALPHA), Factor(p, x, y, c))
  {
    assert RowPart(p, p.height, [p.width], x, y, c, 1)
      == Term(p.height * p.width, Channel(p, x, y, ALPHA), Factor(p, x, y, c));
    assert WindowPart(p, [p.height], [p.width], x, y, c, 1) == RowPart(p, p.height, [p.width], x, y, c, 1);
  }

  lemma RoundedTerm(weight: nat, alpha: nat, factor: nat)
    requires weight > 0
    ensures Rounded(Term(weight, alpha, 1), weight) == alpha
    ensures Term(weight, alpha, 1) > 0 <==> alpha > 0
    ensures alpha > 0 ==> Rounded(Term(weight, alpha, factor), Term(weight, alpha, 1)) == factor
  {
    Commutes(weight, alpha);
    RoundedAtMost(weight * alpha, weight, alpha);
    RoundedAtLeast(weight * alpha, weight, alpha);
    if alpha > 0 {
      Monotone(1, alpha, weight);
      Commutes(weight * alpha, factor);
      RoundedAtMost(weight * alpha * factor, weight * alpha, factor);
      RoundedAtLeast(weight * alpha * factor, weight * alpha, factor);
    } else {
      assert 0 * weight == 0;
    }
  }

  /** Scaling to the same size keeps every visible pixel and blanks every
      transparent one. */
  lemma EqualSizeKeeps(p: Image, x: nat, y: nat, c: nat)
    requires IsPicture(p) && x < p.width && y < p.height && c < 4
    ensures Channel(Scaled(p, p.width, p.height), x, y, c)
         == if Channel(p, x, y, ALPHA) == 0 then 0 else Channel(p, x, y, c)
  {
    ScaledChannel(p, p.width, p.height, x, y, c);
    RowsFit(p, p.width, p.height, x, y);
    EqualSizes(p.width, x, FirstPixel(p.width, p.width, x), RowOf(p.width, p.width, x));
    EqualSizes(p.height, y, FirstPixel(p.height, p.height, y), RowOf(p.height, p.height, y));
    OnePixelWindow(p, x, y, ALPHA);
    OnePixelWindow(p, x, y, c);
    Monotone(1, p.height, p.width);
    Commutes(p.height, p.width);
    RoundedTerm(p.height * p.width, Channel(p, x, y, ALPHA), Factor(p, x, y, c));
  }

  lemma {:induction false} PixelOfByte(width: nat, height: nat, at: nat) returns (x: nat, y: nat, c: nat)
    requires width >= 1 && at < Size(height, width * 4)
    ensures x < width && y < height && c < 4 && at == (y * width + x) * 4 + c
    decreases height
  {
    if at < Size(height - 1, width * 4) {
      x, y, c := PixelOfByte(width, height - 1, at);
    } else {
      var rest := at - Size(height - 1, width * 4);
      x, y, c := rest / 4, height - 1, rest % 4;
      PixelInside(width, height, x, y);
    }
  }

  predicate BlankWhereTransparent(p: Image)
    requires IsPicture(p)
  {
    forall x, y, c :: 0 <= x < p.width && 0 <= y < p.height && 0 <= c < 4 && Channel(p, x, y, ALPHA) == 0
                  ==> Channel(p, x, y, c) == 0
  }

  /** So it is the identity exactly on the images that are blank where they are
      transparent. */
  lemma EqualSizeIdentity(p: Image)
    requires IsPicture(p)
    ensures Scaled(p, p.width, p.height) == p <==> BlankWhereTransparent(p)
  {
    var s := Scaled(p, p.width, p.height);
    forall x, y, c | 0 <= x < p.width && 0 <= y < p.height && 0 <= c < 4
      ensures Channel(s, x, y, c) == if Channel(p, x, y, ALPHA) == 0 then 0 else Channel(p, x, y, c)
    {
      EqualSizeKeeps(p, x, y, c);
    }
    if BlankWhereTransparent(p) {
      forall at | 0 <= at < |p.pixels| ensures s.pixels[at] == p.pixels[at] {
        var x, y, c := PixelOfByte(p.width, p.height, at);
        assert Channel(s, x, y, c) == Channel(p, x, y, c);
      }
      assert s.pixels == p.pixels;
    }
  }

  // ------------------------------------------------------------------
  // As it runs.

  method SumWindow(p: Image, rows: seq<nat>, columns: seq<nat>, xStart: nat, yStart: nat)
    returns (alphaSum: nat, redSum: nat, greenSum: nat, blueSum: nat)
    requires WindowInside(p, rows, columns, xStart, yStart)
    ensures alphaSum == WindowSum(p, rows, columns, xStart, yStart, ALPHA)
    ensures redSum == WindowSum(p, rows, columns, xStart, yStart, 0)
    ensures greenSum == WindowSum(p, rows, columns, xStart, yStart, 1)
    ensures blueSum == WindowSum(p, rows, columns, xStart, yStart, 2)
  {
    alphaSum, redSum, greenSum, blueSum := 0, 0, 0, 0;
    for j := 0 to |rows|
      invariant alphaSum == WindowPart(p, rows, columns, xStart, yStart, ALPHA, j)
      invariant redSum == WindowPart(p, rows, columns, xStart, yStart, 0, j)
      invariant greenSum == WindowPart(p, rows, columns, xStart, yStart, 1, j)
      invariant blueSum == WindowPart(p, rows, columns, xStart, yStart, 2, j)
    {
      var a, r, g, b := SumRow(p, rows[j], columns, xStart, yStart + j);
      alphaSum, redSum, greenSum, blueSum := alphaSum + a, redSum + r, greenSum + g, blueSum + b;
    }
  }

  method SumRow(p: Image, rowWeight: nat, columns: seq<nat>, xStart: nat, y: nat)
    returns (alphaSum: nat, redSum: nat, greenSum: nat, blueSum: nat)
    requires InsidePicture(p, columns, xStart, y)
    ensures alphaSum == RowPart(p, rowWeight, columns, xStart, y, ALPHA, |columns|)
    ensures redSum == RowPart(p, rowWeight, columns, xStart, y, 0, |columns|)
    ensures greenSum == RowPart(p, rowWeight, columns, xStart, y, 1, |columns|)
    ensures blueSum == RowPart(p, rowWeight, columns, xStart, y, 2, |columns|)
  {
    alphaSum, redSum, greenSum, blueSum := 0, 0, 0, 0;
    for k := 0 to |columns|
      invariant alphaSum == RowPart(p, rowWeight, columns, xStart, y, ALPHA, k)
      invariant redSum == RowPart(p, rowWeight, columns, xStart, y, 0, k)
      invariant greenSum == RowPart(p, rowWeight, columns, xStart, y, 1, k)
      invariant blueSum == RowPart(p, rowWeight, columns, xStart, y, 2, k)
    {
      var a, r, g, b := WeighPixel(p, rowWeight * columns[k], xStart + k, y);
      alphaSum, redSum, greenSum, blueSum := alphaSum + a, redSum + r, greenSum + g, blueSum + b;
    }
  }

  /** What one pixel adds to the sums: nothing if it is transparent. */
  method WeighPixel(p: Image, weight: nat, x: nat, y: nat) returns (a: nat, r: nat, g: nat, b: nat)
    requires IsPicture(p) && x < p.width && y < p.height
    ensures a == Term(weight, Channel(p, x, y, ALPHA), Factor(p, x, y, ALPHA))
    ensures r == Term(weight, Channel(p, x, y, ALPHA), Factor(p, x, y, 0))
    ensures g == Term(weight, Channel(p, x, y, ALPHA), Factor(p, x, y, 1))
    ensures b == Term(weight, Channel(p, x, y, ALPHA), Factor(p, x, y, 2))
  {
    PixelInside(p.width, p.height, x, y);
    var pixel := (y * p.width + x) * 4;
    var alpha := p.pixels[pixel + 3];
    if alpha != 0 {
      var alphaWeight: nat := weight * alpha;
      r := alphaWeight * p.pixels[pixel];
      g := alphaWeight * p.pixels[pixel + 1];
      b := alphaWeight * p.pixels[pixel + 2];
      a := alphaWeight;
    } else {
      TermOfTransparent(weight, p.pixels[pixel]);
      TermOfTransparent(weight, p.pixels[pixel + 1]);
      TermOfTransparent(weight, p.pixels[pixel + 2]);
      TermOfTransparent(weight, 1);
      a, r, g, b := 0, 0, 0, 0;
    }
  }

  lemma TermOfTransparent(weight: nat, factor: nat)
    ensures Term(weight, 0, factor) == 0
  {
  }

  method ScaleBoxRgba(p: Image, targetWidth: nat, targetHeight: nat) returns (target: array<byte>)
    requires IsPicture(p) && GoodTarget(targetWidth, targetHeight)
    ensures fresh(target) && target[..] == Scaled(p, targetWidth, targetHeight).pixels
  {
    var starts, weights := BuildAxisWeights(p.width, targetWidth);
    var xStarts, xWeights := starts[..], weights[..];
    starts, weights := BuildAxisWeights(p.height, targetHeight);
    var yStarts, yWeights := starts[..], weights[..];
    target := new byte[Size(targetHeight, targetWidth * 4)](_ => 0);
    ScaleRows(p, targetWidth, targetHeight, xStarts, xWeights, yStarts, yWeights, target);
  }

  method ScaleRows(p: Image, targetWidth: nat, targetHeight: nat, xStarts: seq<nat>, xWeights: seq<seq<nat>>,
                   yStarts: seq<nat>, yWeights: seq<seq<nat>>, target: array<byte>)
    requires IsPicture(p) && GoodTarget(targetWidth, targetHeight)
             && target.Length == Size(targetHeight, targetWidth * 4)
    requires IsAxis(p.width, targetWidth, xStarts, xWeights) && IsAxis(p.height, targetHeight, yStarts, yWeights)
    modifies target
    ensures target[..] == Raster(p, targetWidth, targetHeight, targetHeight)
  {
    for oy := 0 to targetHeight
      invariant Size(oy, targetWidth * 4) <= target.Length
      invariant target[..Size(oy, targetWidth * 4)] == Raster(p, targetWidth, targetHeight, oy)
    {
      SizeSteps(oy, targetHeight, targetWidth * 4);
      assert IsRow(p.height, targetHeight, oy, yStarts[oy], yWeights[oy]);
      ScaleRow(p, targetWidth, targetHeight, oy, yStarts[oy], yWeights[oy], xStarts, xWeights, target);
    }
    assert target[..] == target[..Size(targetHeight, targetWidth * 4)];
  }

  lemma Regroup(a: seq<byte>, b: seq<byte>, c: seq<byte>)
    ensures (a + b) + c == a + (b + c)
  {
  }

  method ScaleRow(p: Image, targetWidth: nat, targetHeight: nat, oy: nat, yStart: nat, rowWeights: seq<nat>,
                  xStarts: seq<nat>, xWeights: seq<seq<nat>>, target: array<byte>)
    requires IsPicture(p) && targetWidth >= 1 && oy < targetHeight
    requires IsAxis(p.width, targetWidth, xStarts, xWeights) && IsRow(p.height, targetHeight, oy, yStart, rowWeights)
    requires Size(oy, targetWidth * 4) + targetWidth * 4 <= target.Length
    modifies target
    ensures var at := Size(oy, targetWidth * 4);
            target[..at + targetWidth * 4]
            == old(target[..at]) + RasterRow(p, targetWidth, targetHeight, oy, targetWidth)
  {
    var at := Size(oy, targetWidth * 4);
    ghost var before := target[..at];
    for ox := 0 to targetWidth
      invariant target[..at + ox * 4] == before + RasterRow(p, targetWidth, targetHeight, oy, ox)
    {
      assert IsRow(p.width, targetWidth, ox, xStarts[ox], xWeights[ox]);
      ScaleInto(p, targetWidth, targetHeight, ox, oy, xStarts[ox], yStart, rowWeights, xWeights[ox], target);
      Regroup(before, RasterRow(p, targetWidth, targetHeight, oy, ox), ScaledAt(p, targetWidth, targetHeight, ox, oy));
    }
  }

  method ScaleInto(p: Image, targetWidth: nat, targetHeight: nat, ox: nat, oy: nat, xStart: nat, yStart: nat,
                   rows: seq<nat>, columns: seq<nat>, target: array<byte>)
    requires IsWindow(p, targetWidth, targetHeight, ox, oy, rows, columns, xStart, yStart)
    requires Size(oy, targetWidth * 4) + targetWidth * 4 <= target.Length
    modifies target
    ensures var at := Size(oy, targetWidth * 4) + ox * 4;
            target[..at + 4] == old(target[..at]) + ScaledAt(p, targetWidth, targetHeight, ox, oy)
  {
    var pixel := ScaleOne(p, targetWidth, targetHeight, ox, oy, xStart, yStart, rows, columns);
    PixelInside(targetWidth, targetHeight, ox, oy);
    var targetIndex := (oy * targetWidth + ox) * 4;
    PutPixel(target, targetIndex, pixel);
  }

  method PutPixel(target: array<byte>, at: nat, pixel: seq<byte>)
    requires |pixel| == 4 && at + 4 <= target.Length
    modifies target
    ensures target[..at + 4] == old(target[..at]) + pixel
  {
    target[at] := pixel[0];
    target[at + 1] := pixel[1];
    target[at + 2] := pixel[2];
    target[at + 3] := pixel[3];
  }

  method ScaleOne(p: Image, targetWidth: nat, targetHeight: nat, ox: nat, oy: nat, xStart: nat, yStart: nat,
                  rows: seq<nat>, columns: seq<nat>) returns (pixel: seq<byte>)
    requires IsWindow(p, targetWidth, targetHeight, ox, oy, rows, columns, xStart, yStart)
    ensures pixel == ScaledAt(p, targetWidth, targetHeight, ox, oy)
  {
    RowUnique(p.width, targetWidth, ox, xStart, columns);
    RowUnique(p.height, targetHeight, oy, yStart, rows);
    RowsFit(p, targetWidth, targetHeight, ox, oy);
    var totalWeight := p.width * p.height;
    Monotone(1, p.width, p.height);
    var alphaSum, redSum, greenSum, blueSum := SumWindow(p, rows, columns, xStart, yStart);
    pixel := RoundPixel(alphaSum, redSum, greenSum, blueSum, totalWeight);
  }

  method RoundPixel(alphaSum: nat, redSum: nat, greenSum: nat, blueSum: nat, totalWeight: nat)
    returns (pixel: seq<byte>)
    requires totalWeight > 0
    ensures pixel == Quotients(alphaSum, redSum, greenSum, blueSum, totalWeight)
  {
    pixel := [0, 0, 0, 0];
    if alphaSum > 0 {
      pixel := [Clamp((redSum + alphaSum / 2) / alphaSum), Clamp((greenSum + alphaSum / 2) / alphaSum),
                Clamp((blueSum + alphaSum / 2) / alphaSum), Clamp((alphaSum + totalWeight / 2) / totalWeight)];
    }
  }
}
