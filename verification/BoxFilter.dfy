/**
 Exact integer box filtering over premultiplied alpha: what every target pixel
 is, that no clamp or 64-bit sum is ever at its limit, and what scaling leaves
 as it was.
 */
module BoxFilter {
  import opened Bytes
  import opened AxisWeights
  import opened ScanlineFilter
  import opened Png

  const MAX_INT64 := 0x7FFF_FFFF_FFFF_FFFF
  const ALPHA := 3

  predicate IsPicture(p: Image) {
    p.width >= 1 && p.height >= 1 && |p.pixels| == Size(p.height, p.width * 4)
  }

  lemma PixelInside(width: nat, height: nat, x: nat, y: nat)
    requires x < width && y < height
    ensures (y * width + x) * 4 + 4 <= Size(height, width * 4)
    ensures (y * width + x) * 4 == Size(y, width * 4) + x * 4
  {
    SizeIsProduct(y, width * 4);
    SizeIsProduct(height, width * 4);
    Monotone(y + 1, height, width * 4);
    NextMultiple(y, width * 4);
    assert y * (width * 4) == (y * width) * 4;
  }

  function Channel(p: Image, x: nat, y: nat, c: nat): byte
    requires IsPicture(p) && x < p.width && y < p.height && c < 4
  {
    PixelInside(p.width, p.height, x, y);
    p.pixels[(y * p.width + x) * 4 + c]
  }

  /** What a pixel's weight times alpha is multiplied by in the sum of channel c. */
  function Factor(p: Image, x: nat, y: nat, c: nat): nat
    requires IsPicture(p) && x < p.width && y < p.height && c < 4
  {
    if c == ALPHA then 1 else Channel(p, x, y, c)
  }

  function Term(weight: nat, alpha: nat, factor: nat): nat { weight * alpha * factor }

  predicate InsidePicture(p: Image, columns: seq<nat>, x: nat, y: nat) {
    IsPicture(p) && x + |columns| <= p.width && y < p.height
  }

  /** The sum of channel c over the first n pixels of one weighted source row. */
  function RowPart(p: Image, rowWeight: nat, columns: seq<nat>, x: nat, y: nat, c: nat, n: nat): nat
    requires InsidePicture(p, columns, x, y) && n <= |columns| && c < 4
  {
    if n == 0 then 0
    else
      var k := n - 1;
      RowPart(p, rowWeight, columns, x, y, c, k)
      + Term(rowWeight * columns[k], Channel(p, x + k, y, ALPHA), Factor(p, x + k, y, c))
  }

  predicate WindowInside(p: Image, rows: seq<nat>, columns: seq<nat>, x: nat, y: nat) {
    IsPicture(p) && x + |columns| <= p.width && y + |rows| <= p.height
  }

  /** The sum of channel c over the first m rows of a weighted window. */
  function WindowPart(p: Image, rows: seq<nat>, columns: seq<nat>, x: nat, y: nat, c: nat, m: nat): nat
    requires WindowInside(p, rows, columns, x, y) && m <= |rows| && c < 4
  {
    if m == 0 then 0
    else WindowPart(p, rows, columns, x, y, c, m - 1) + RowPart(p, rows[m - 1], columns, x, y + m - 1, c, |columns|)
  }

  function WindowSum(p: Image, rows: seq<nat>, columns: seq<nat>, x: nat, y: nat, c: nat): nat
    requires WindowInside(p, rows, columns, x, y) && c < 4
  {
    WindowPart(p, rows, columns, x, y, c, |rows|)
  }

  function Rounded(sum: nat, weight: nat): nat
    requires weight > 0
  {
    (sum + weight / 2) / weight
  }

  function Clamp(v: nat): byte { if v > 255 then 255 else v }

  function Quotients(alphaSum: nat, redSum: nat, greenSum: nat, blueSum: nat, totalWeight: nat): (pixel: seq<byte>)
    requires totalWeight > 0
    ensures |pixel| == 4
  {
    if alphaSum == 0 then [0, 0, 0, 0]
    else [Clamp(Rounded(redSum, alphaSum)), Clamp(Rounded(greenSum, alphaSum)), Clamp(Rounded(blueSum, alphaSum)),
          Clamp(Rounded(alphaSum, totalWeight))]
  }

  function ScaledPixel(p: Image, rows: seq<nat>, columns: seq<nat>, x: nat, y: nat): (pixel: seq<byte>)
    requires WindowInside(p, rows, columns, x, y)
    ensures |pixel| == 4
  {
    Monotone(1, p.width, p.height);
    Quotients(WindowSum(p, rows, columns, x, y, ALPHA), WindowSum(p, rows, columns, x, y, 0),
              WindowSum(p, rows, columns, x, y, 1), WindowSum(p, rows, columns, x, y, 2), p.width * p.height)
  }

  // ------------------------------------------------------------------
  // Sums against their total weight.

  lemma TermWithin(weight: nat, alpha: nat, factor: nat, lo: nat, hi: nat)
    requires alpha != 0 ==> lo <= factor <= hi
    ensures lo * Term(weight, alpha, 1) <= Term(weight, alpha, factor) <= hi * Term(weight, alpha, 1)
  {
    if alpha != 0 {
      Monotone(lo, factor, weight * alpha);
      Monotone(factor, hi, weight * alpha);
      Commutes(factor, weight * alpha);
    } else {
      assert weight * alpha == 0;
      assert 0 * factor == 0 && lo * 0 == 0 && hi * 0 == 0;
    }
  }

  lemma AlphaTermAtMost(weight: nat, alpha: nat)
    requires alpha <= 255
    ensures Term(weight, alpha, 1) <= 255 * weight
  {
    Monotone(alpha, 255, weight);
    assert alpha * weight == weight * alpha;
  }

  lemma Distribute(a: nat, b: nat, c: nat)
    ensures a * (b + c) == a * b + a * c
  {
  }

  /** The alpha sum of a row is at most 255 times its weight, and exactly that
      where the row is opaque. */
  lemma {:induction false} RowAlpha(p: Image, rowWeight: nat, columns: seq<nat>, x: nat, y: nat, n: nat)
    requires InsidePicture(p, columns, x, y) && n <= |columns|
    ensures RowPart(p, rowWeight, columns, x, y, ALPHA, n) <= 255 * (rowWeight * SumTo(columns, n))
    ensures (forall k :: x <= k < x + n ==> Channel(p, k, y, ALPHA) == 255)
        ==> RowPart(p, rowWeight, columns, x, y, ALPHA, n) == 255 * (rowWeight * SumTo(columns, n))
  {
    if n > 0 {
      var weight, alpha := rowWeight * columns[n - 1], Channel(p, x + n - 1, y, ALPHA);
      RowAlpha(p, rowWeight, columns, x, y, n - 1);
      AlphaTermAtMost(weight, alpha);
      Distribute(rowWeight, SumTo(columns, n - 1), columns[n - 1]);
      if alpha == 255 { assert Term(weight, alpha, 1) == 255 * weight; }
    }
  }

  predicate OpaqueWindow(p: Image, rows: seq<nat>, columns: seq<nat>, x: nat, y: nat)
    requires WindowInside(p, rows, columns, x, y)
  {
    forall i, k :: x <= k < x + |columns| && y <= i < y + |rows| ==> Channel(p, k, i, ALPHA) == 255
  }

  lemma {:induction false} WindowAlpha(p: Image, rows: seq<nat>, columns: seq<nat>, x: nat, y: nat, m: nat)
    requires WindowInside(p, rows, columns, x, y) && m <= |rows|
    ensures WindowPart(p, rows, columns, x, y, ALPHA, m) <= 255 * (SumTo(rows, m) * Sum(columns))
    ensures OpaqueWindow(p, rows, columns, x, y)
        ==> WindowPart(p, rows, columns, x, y, ALPHA, m) == 255 * (SumTo(rows, m) * Sum(columns))
  {
    if m > 0 {
      WindowAlpha(p, rows, columns, x, y, m - 1);
      RowAlpha(p, rows[m - 1], columns, x, y + m - 1, |columns|);
      Distribute(Sum(columns), SumTo(rows, m - 1), rows[m - 1]);
      Commutes(Sum(columns), SumTo(rows, m));
      Commutes(Sum(columns), SumTo(rows, m - 1));
      Commutes(Sum(columns), rows[m - 1]);
    }
  }

  /** Every visible pixel of the window has a value of channel c in [lo, hi]. */
  predicate WindowWithin(p: Image, rows: seq<nat>, columns: seq<nat>, x: nat, y: nat, c: nat, lo: nat, hi: nat)
    requires WindowInside(p, rows, columns, x, y) && c < 4
  {
    forall i, k :: x <= k < x + |columns| && y <= i < y + |rows| && Channel(p, k, i, ALPHA) != 0
               ==> lo <= Factor(p, k, i, c) <= hi
  }

  predicate RowWithin(p: Image, columns: seq<nat>, x: nat, y: nat, c: nat, lo: nat, hi: nat)
    requires InsidePicture(p, columns, x, y) && c < 4
  {
    forall k :: x <= k < x + |columns| && Channel(p, k, y, ALPHA) != 0 ==> lo <= Factor(p, k, y, c) <= hi
  }

  /** The colour sum divided by the alpha sum lies between the least and the
      greatest visible value. */
  lemma {:induction false} RowMean(p: Image, rowWeight: nat, columns: seq<nat>, x: nat, y: nat, c: nat, lo: nat,
                                   hi: nat, n: nat)
    requires InsidePicture(p, columns, x, y) && n <= |columns| && c < 4 && RowWithin(p, columns, x, y, c, lo, hi)
    ensures var alphaSum := RowPart(p, rowWeight, columns, x, y, ALPHA, n);
            lo * alphaSum <= RowPart(p, rowWeight, columns, x, y, c, n) <= hi * alphaSum
  {
    if n > 0 {
      RowMean(p, rowWeight, columns, x, y, c, lo, hi, n - 1);
      var weight, alpha := rowWeight * columns[n - 1], Channel(p, x + n - 1, y, ALPHA);
      TermWithin(weight, alpha, Factor(p, x + n - 1, y, c), lo, hi);
      var before := RowPart(p, rowWeight, columns, x, y, ALPHA, n - 1);
      Distribute(lo, before, Term(weight, alpha, 1));
      Distribute(hi, before, Term(weight, alpha, 1));
    }
  }

  lemma {:induction false} WindowMean(p: Image, rows: seq<nat>, columns: seq<nat>, x: nat, y: nat, c: nat, lo: nat,
                                      hi: nat, m: nat)
    requires WindowInside(p, rows, columns, x, y) && m <= |rows| && c < 4
             && WindowWithin(p, rows, columns, x, y, c, lo, hi)
    ensures var alphaSum := WindowPart(p, rows, columns, x, y, ALPHA, m);
            lo * alphaSum <= WindowPart(p, rows, columns, x, y, c, m) <= hi * alphaSum
  {
    if m > 0 {
      WindowMean(p, rows, columns, x, y, c, lo, hi, m - 1);
      RowMean(p, rows[m - 1], columns, x, y + m - 1, c, lo, hi, |columns|);
      var before, row := WindowPart(p, rows, columns, x, y, ALPHA, m - 1),
                         RowPart(p, rows[m - 1], columns, x, y + m - 1, ALPHA, |columns|);
      Distribute(lo, before, row);
      Distribute(hi, before, row);
    }
  }

  // ------------------------------------------------------------------
  // Rounding.

  /** Rounding is to the nearest, halves up: the result r is the one integer with
      (r - 1/2) weight <= sum < (r + 1/2) weight. */
  lemma RoundedNearest(sum: nat, weight: nat)
    requires weight > 0
    ensures var r := Rounded(sum, weight);
            2 * (r * weight) <= 2 * sum + weight < 2 * (r * weight) + 2 * weight
  {
    Bracket(sum + weight / 2, weight);
  }

  lemma RoundedAtMost(sum: nat, weight: nat, bound: nat)
    requires weight > 0 && sum <= bound * weight
    ensures Rounded(sum, weight) <= bound
  {
    var r := Rounded(sum, weight);
    Bracket(sum + weight / 2, weight);
    NextMultiple(bound, weight);
    if r > bound { Monotone(bound + 1, r, weight); }
  }

  lemma RoundedAtLeast(sum: nat, weight: nat, bound: nat)
    requires weight > 0 && bound * weight <= sum
    ensures bound <= Rounded(sum, weight)
  {
    var r := Rounded(sum, weight);
    Bracket(sum + weight / 2, weight);
    NextMultiple(r, weight);
    if r < bound { Monotone(r + 1, bound, weight); }
  }

  // ------------------------------------------------------------------
  // A window as the axes make it.

  ghost predicate IsWindow(p: Image, targetWidth: nat, targetHeight: nat, ox: nat, oy: nat,
                           rows: seq<nat>, columns: seq<nat>, x: nat, y: nat) {
    IsPicture(p) && ox < targetWidth && oy < targetHeight
    && IsRow(p.width, targetWidth, ox, x, columns) && IsRow(p.height, targetHeight, oy, y, rows)
  }

  lemma WindowFacts(p: Image, targetWidth: nat, targetHeight: nat, ox: nat, oy: nat,
                    rows: seq<nat>, columns: seq<nat>, x: nat, y: nat)
    requires IsWindow(p, targetWidth, targetHeight, ox, oy, rows, columns, x, y)
    ensures WindowInside(p, rows, columns, x, y)
    ensures Sum(rows) * Sum(columns) == p.width * p.height
    ensures WindowSum(p, rows, columns, x, y, ALPHA) <= 255 * (p.width * p.height)
  {
    Touches(p.width, targetWidth, ox);
    Touches(p.height, targetHeight, oy);
    RowSum(p.width, targetWidth, ox, x, columns);
    RowSum(p.height, targetHeight, oy, y, rows);
    Commutes(p.width, p.height);
    WindowAlpha(p, rows, columns, x, y, |rows|);
  }

  /** No clamp ever changes a value. */
  lemma ClampsNeverAct(p: Image, targetWidth: nat, targetHeight: nat, ox: nat, oy: nat,
                       rows: seq<nat>, columns: seq<nat>, x: nat, y: nat, c: nat)
    requires IsWindow(p, targetWidth, targetHeight, ox, oy, rows, columns, x, y) && c < ALPHA
    ensures WindowInside(p, rows, columns, x, y)
    ensures p.width * p.height > 0
    ensures var alphaSum := WindowSum(p, rows, columns, x, y, ALPHA);
            alphaSum > 0 ==> Rounded(WindowSum(p, rows, columns, x, y, c), alphaSum) <= 255
    ensures Rounded(WindowSum(p, rows, columns, x, y, ALPHA), p.width * p.height) <= 255
  {
    WindowFacts(p, targetWidth, targetHeight, ox, oy, rows, columns, x, y);
    var alphaSum := WindowSum(p, rows, columns, x, y, ALPHA);
    if alphaSum > 0 {
      WindowMean(p, rows, columns, x, y, c, 0, 255, |rows|);
      RoundedAtMost(WindowSum(p, rows, columns, x, y, c), alphaSum, 255);
    }
    Monotone(1, p.width, p.height);
    RoundedAtMost(alphaSum, p.width * p.height, 255);
  }

  lemma {:induction false} PartsGrow(p: Image, rows: seq<nat>, columns: seq<nat>, x: nat, y: nat, c: nat, m: nat)
    requires WindowInside(p, rows, columns, x, y) && m <= |rows| && c < 4
    ensures WindowPart(p, rows, columns, x, y, c, m) <= WindowSum(p, rows, columns, x, y, c)
    decreases |rows| - m
  {
    if m < |rows| { PartsGrow(p, rows, columns, x, y, c, m + 1); }
  }

  lemma {:induction false} RowPartsGrow(p: Image, rowWeight: nat, columns: seq<nat>, x: nat, y: nat, c: nat, n: nat)
    requires InsidePicture(p, columns, x, y) && n <= |columns| && c < 4
    ensures RowPart(p, rowWeight, columns, x, y, c, n) <= RowPart(p, rowWeight, columns, x, y, c, |columns|)
    decreases |columns| - n
  {
    if n < |columns| { RowPartsGrow(p, rowWeight, columns, x, y, c, n + 1); }
  }

  /** Every value a sum passes through, with the half weight added for rounding,
      fits a signed 64-bit number. */
  lemma SumsFit(p: Image, targetWidth: nat, targetHeight: nat, ox: nat, oy: nat,
                rows: seq<nat>, columns: seq<nat>, x: nat, y: nat, c: nat, m: nat, n: nat)
    requires IsWindow(p, targetWidth, targetHeight, ox, oy, rows, columns, x, y) && c < 4
    requires p.width <= MAX_DIMENSION && p.height <= MAX_DIMENSION && m < |rows| && n <= |columns|
    ensures WindowInside(p, rows, columns, x, y)
    ensures WindowPart(p, rows, columns, x, y, c, m) + RowPart(p, rows[m], columns, x, y + m, c, n)
            + WindowSum(p, rows, columns, x, y, ALPHA) / 2 + p.width * p.height / 2 <= MAX_INT64
  {
    WindowFacts(p, targetWidth, targetHeight, ox, oy, rows, columns, x, y);
    RowPartsGrow(p, rows[m], columns, x, y + m, c, n);
    PartsGrow(p, rows, columns, x, y, c, m + 1);
    WindowMean(p, rows, columns, x, y, c, 0, 255, |rows|);
    Monotone(p.width, MAX_DIMENSION, p.height);
  }
}
