/**
 What a scaled pixel is, said without windows: the mean over the whole source
 picture, each pixel weighted by what it shares with the target pixel.
 */
module BoxExactness {
  import opened AxisWeights
  import opened Png
  import opened BoxFilter
  import opened BoxScaling

  function Product(a: nat, b: nat): nat { a * b }

  /** The area that source pixel (k, i) shares with target pixel (ox, oy). */
  function Shared(p: Image, targetWidth: nat, targetHeight: nat, ox: nat, oy: nat, k: nat, i: nat): nat {
    Product(Weight(p.height, targetHeight, oy, i), Weight(p.width, targetWidth, ox, k))
  }

  /** What one source pixel brings to channel c of a target pixel: its alpha, or
      its colour times its alpha, over the shared area. */
  function Share(p: Image, targetWidth: nat, targetHeight: nat, ox: nat, oy: nat, k: nat, i: nat, c: nat): nat
    requires IsPicture(p) && k < p.width && i < p.height && c < 4
  {
    var visible := Product(Shared(p, targetWidth, targetHeight, ox, oy, k, i), Channel(p, k, i, 3));
    if c == 3 then visible else Product(visible, Channel(p, k, i, c))
  }

  /** The first n pixels of source row i. */
  function RowTotal(p: Image, targetWidth: nat, targetHeight: nat, ox: nat, oy: nat, i: nat, c: nat, n: nat): nat
    requires IsPicture(p) && i < p.height && n <= p.width && c < 4
  {
    if n == 0 then 0
    else
      RowTotal(p, targetWidth, targetHeight, ox, oy, i, c, n - 1)
      + Share(p, targetWidth, targetHeight, ox, oy, n - 1, i, c)
  }

  /** The first m rows of the source picture. */
  function Total(p: Image, targetWidth: nat, targetHeight: nat, ox: nat, oy: nat, c: nat, m: nat): nat
    requires IsPicture(p) && m <= p.height && c < 4
  {
    if m == 0 then 0
    else
      Total(p, targetWidth, targetHeight, ox, oy, c, m - 1)
      + RowTotal(p, targetWidth, targetHeight, ox, oy, m - 1, c, p.width)
  }

  // ------------------------------------------------------------------
  // The window has all of it.

  lemma ShareIsTerm(p: Image, targetWidth: nat, targetHeight: nat, ox: nat, oy: nat, k: nat, i: nat, c: nat)
    requires IsPicture(p) && k < p.width && i < p.height && c < 4
    ensures Share(p, targetWidth, targetHeight, ox, oy, k, i, c)
         == Term(Shared(p, targetWidth, targetHeight, ox, oy, k, i), Channel(p, k, i, ALPHA), Factor(p, k, i, c))
  {
  }

  lemma TimesZero(a: nat, b: nat)
    requires a == 0 || b == 0
    ensures Product(a, b) == 0
  {
  }

  lemma NoShare(p: Image, targetWidth: nat, targetHeight: nat, ox: nat, oy: nat, k: nat, i: nat, c: nat)
    requires IsPicture(p) && k < p.width && i < p.height && c < 4
    requires Weight(p.width, targetWidth, ox, k) == 0 || Weight(p.height, targetHeight, oy, i) == 0
    ensures Share(p, targetWidth, targetHeight, ox, oy, k, i, c) == 0
  {
    TimesZero(Weight(p.height, targetHeight, oy, i), Weight(p.width, targetWidth, ox, k));
    TimesZero(Shared(p, targetWidth, targetHeight, ox, oy, k, i), Channel(p, k, i, 3));
    TimesZero(Product(Shared(p, targetWidth, targetHeight, ox, oy, k, i), Channel(p, k, i, 3)), Channel(p, k, i, c));
  }

  lemma {:induction false} UnweightedRow(p: Image, targetWidth: nat, targetHeight: nat, ox: nat, oy: nat, i: nat,
                                         c: nat, n: nat)
    requires IsPicture(p) && i < p.height && n <= p.width && c < 4 && Weight(p.height, targetHeight, oy, i) == 0
    ensures RowTotal(p, targetWidth, targetHeight, ox, oy, i, c, n) == 0
  {
    if n > 0 {
      UnweightedRow(p, targetWidth, targetHeight, ox, oy, i, c, n - 1);
      NoShare(p, targetWidth, targetHeight, ox, oy, n - 1, i, c);
    }
  }

  /** Of a row, the part within the window. */
  function Within(start: nat, count: nat, n: nat): nat {
    if n <= start then 0 else if n - start < count then n - start else count
  }

  lemma ShareInWindow(p: Image, targetWidth: nat, targetHeight: nat, ox: nat, oy: nat, x: nat, columns: seq<nat>,
                      i: nat, c: nat, k: nat)
    requires IsPicture(p) && i < p.height && k < p.width && c < 4 && ox < targetWidth
    requires IsRow(p.width, targetWidth, ox, x, columns) && InsidePicture(p, columns, x, i)
    ensures Share(p, targetWidth, targetHeight, ox, oy, k, i, c)
         == if x <= k < x + |columns|
            then Term(Weight(p.height, targetHeight, oy, i) * columns[k - x], Channel(p, k, i, ALPHA),
                      Factor(p, k, i, c))
            else 0
  {
    StoredIsWeight(p.width, targetWidth, ox, x, columns, k);
    if x <= k < x + |columns| {
      ShareIsTerm(p, targetWidth, targetHeight, ox, oy, k, i, c);
    } else {
      NoShare(p, targetWidth, targetHeight, ox, oy, k, i, c);
    }
  }

  lemma {:induction false} RowInWindow(p: Image, targetWidth: nat, targetHeight: nat, ox: nat, oy: nat, x: nat,
                                       columns: seq<nat>, i: nat, c: nat, n: nat)
    requires IsPicture(p) && i < p.height && n <= p.width && c < 4 && ox < targetWidth
    requires IsRow(p.width, targetWidth, ox, x, columns) && InsidePicture(p, columns, x, i)
    ensures RowTotal(p, targetWidth, targetHeight, ox, oy, i, c, n)
         == RowPart(p, Weight(p.height, targetHeight, oy, i), columns, x, i, c, Within(x, |columns|, n))
  {
    if n > 0 {
      RowInWindow(p, targetWidth, targetHeight, ox, oy, x, columns, i, c, n - 1);
      ShareInWindow(p, targetWidth, targetHeight, ox, oy, x, columns, i, c, n - 1);
    }
  }

  lemma RowCounts(p: Image, targetWidth: nat, targetHeight: nat, ox: nat, oy: nat, rows: seq<nat>, columns: seq<nat>,
                  x: nat, y: nat, i: nat, c: nat)
    requires IsWindow(p, targetWidth, targetHeight, ox, oy, rows, columns, x, y)
             && WindowInside(p, rows, columns, x, y)
    requires i < p.height && c < 4
    ensures RowTotal(p, targetWidth, targetHeight, ox, oy, i, c, p.width)
         == if y <= i < y + |rows| then RowPart(p, rows[i - y], columns, x, i, c, |columns|) else 0
  {
    StoredIsWeight(p.height, targetHeight, oy, y, rows, i);
    if y <= i < y + |rows| {
      RowInWindow(p, targetWidth, targetHeight, ox, oy, x, columns, i, c, p.width);
    } else {
      UnweightedRow(p, targetWidth, targetHeight, ox, oy, i, c, p.width);
    }
  }

  lemma {:induction false} PictureInWindow(p: Image, targetWidth: nat, targetHeight: nat, ox: nat, oy: nat,
                                           rows: seq<nat>, columns: seq<nat>, x: nat, y: nat, c: nat, m: nat)
    requires IsWindow(p, targetWidth, targetHeight, ox, oy, rows, columns, x, y)
             && WindowInside(p, rows, columns, x, y)
    requires m <= p.height && c < 4
    ensures Total(p, targetWidth, targetHeight, ox, oy, c, m)
         == WindowPart(p, rows, columns, x, y, c, Within(y, |rows|, m))
  {
    if m > 0 {
      PictureInWindow(p, targetWidth, targetHeight, ox, oy, rows, columns, x, y, c, m - 1);
      RowCounts(p, targetWidth, targetHeight, ox, oy, rows, columns, x, y, m - 1, c);
    }
  }

  lemma TotalIsSum(p: Image, targetWidth: nat, targetHeight: nat, ox: nat, oy: nat, rows: seq<nat>, columns: seq<nat>,
                   x: nat, y: nat, c: nat)
    requires IsWindow(p, targetWidth, targetHeight, ox, oy, rows, columns, x, y)
             && WindowInside(p, rows, columns, x, y) && c < 4
    ensures Total(p, targetWidth, targetHeight, ox, oy, c, p.height) == WindowSum(p, rows, columns, x, y, c)
  {
    PictureInWindow(p, targetWidth, targetHeight, ox, oy, rows, columns, x, y, c, p.height);
    assert Within(y, |rows|, p.height) == |rows|;
  }

  // ------------------------------------------------------------------
  // The scaled pixel.

  /** r is the quotient of sum and weight rounded to the nearest, halves up. */
  predicate Nearest(r: nat, sum: nat, weight: nat) {
    2 * Product(r, weight) <= 2 * sum + weight < 2 * Product(r, weight) + 2 * weight
  }

  /** There is only one. */
  lemma NearestUnique(a: nat, b: nat, sum: nat, weight: nat)
    requires Nearest(a, sum, weight) && Nearest(b, sum, weight)
    ensures a == b
  {
    if a < b {
      Monotone(a + 1, b, weight);
      NextMultiple(a, weight);
    } else if b < a {
      Monotone(b + 1, a, weight);
      NextMultiple(b, weight);
    }
  }

  /** What a channel has to be, given the picture's totals of alpha and of itself. */
  predicate IsMean(value: nat, c: nat, alphaTotal: nat, total: nat, area: nat) {
    if alphaTotal == 0 then value == 0
    else if c == 3 then Nearest(value, alphaTotal, area)
    else Nearest(value, total, alphaTotal)
  }

  /** Every channel of every scaled pixel: blank if nothing visible is shared;
      otherwise alpha is the mean over the shared area and each colour the mean over
      that area weighted by alpha, both to the nearest. */
  lemma ScaledExactly(p: Image, targetWidth: nat, targetHeight: nat, x: nat, y: nat, c: nat)
    requires IsPicture(p) && x < targetWidth && y < targetHeight && c < 4
    ensures IsMean(Channel(Scaled(p, targetWidth, targetHeight), x, y, c), c,
                   Total(p, targetWidth, targetHeight, x, y, 3, p.height),
                   Total(p, targetWidth, targetHeight, x, y, c, p.height), Product(p.width, p.height))
  {
    ScaledChannel(p, targetWidth, targetHeight, x, y, c);
    RowsFit(p, targetWidth, targetHeight, x, y);
    var rows, columns := RowOf(p.height, targetHeight, y), RowOf(p.width, targetWidth, x);
    var x0, y0 := FirstPixel(p.width, targetWidth, x), FirstPixel(p.height, targetHeight, y);
    TotalIsSum(p, targetWidth, targetHeight, x, y, rows, columns, x0, y0, 3);
    TotalIsSum(p, targetWidth, targetHeight, x, y, rows, columns, x0, y0, c);
    WindowIsMean(p, targetWidth, targetHeight, x, y, rows, columns, x0, y0, c);
  }

  lemma WindowIsMean(p: Image, targetWidth: nat, targetHeight: nat, ox: nat, oy: nat, rows: seq<nat>,
                     columns: seq<nat>, x: nat, y: nat, c: nat)
    requires IsWindow(p, targetWidth, targetHeight, ox, oy, rows, columns, x, y)
             && WindowInside(p, rows, columns, x, y) && c < 4
    ensures IsMean(ScaledPixel(p, rows, columns, x, y)[c], c, WindowSum(p, rows, columns, x, y, 3),
                   WindowSum(p, rows, columns, x, y, c), Product(p.width, p.height))
  {
    var alphaSum := WindowSum(p, rows, columns, x, y, 3);
    Monotone(1, p.width, p.height);
    ClampsNeverAct(p, targetWidth, targetHeight, ox, oy, rows, columns, x, y, if c == 3 then 0 else c);
    RoundedNearest(alphaSum, p.width * p.height);
    if alphaSum > 0 { RoundedNearest(WindowSum(p, rows, columns, x, y, c), alphaSum); }
  }
}
