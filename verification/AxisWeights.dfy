/**
 Box-filter weights along one axis: both the source and the target pixels cut
 the interval [0, sourceSize * targetSize) into equal parts, and a weight is the
 length two parts share.
 */
module AxisWeights {
  function Min(a: int, b: int): int { if a < b then a else b }

  function Max(a: int, b: int): int { if a < b then b else a }

  /** The length shared by [a0, a1) and [b0, b1). */
  function Overlap(a0: int, a1: int, b0: int, b1: int): nat {
    if Min(a1, b1) > Max(a0, b0) then Min(a1, b1) - Max(a0, b0) else 0
  }

  lemma OverlapAdds(a0: int, a1: int, a2: int, b0: int, b1: int)
    requires a0 <= a1 <= a2
    ensures Overlap(a0, a1, b0, b1) + Overlap(a1, a2, b0, b1) == Overlap(a0, a2, b0, b1)
    ensures Overlap(b0, b1, a0, a1) + Overlap(b0, b1, a1, a2) == Overlap(b0, b1, a0, a2)
  {
  }

  /** The weight of source pixel p in target pixel i. */
  function Weight(sourceSize: nat, targetSize: nat, i: nat, p: nat): nat {
    Overlap(i * sourceSize, (i + 1) * sourceSize, p * targetSize, (p + 1) * targetSize)
  }

  function FirstPixel(sourceSize: nat, targetSize: nat, i: nat): nat
    requires targetSize > 0
  {
    i * sourceSize / targetSize
  }

  function LastPixel(sourceSize: nat, targetSize: nat, i: nat): int
    requires targetSize > 0
  {
    ((i + 1) * sourceSize - 1) / targetSize
  }

  /** The stored row of target pixel i: where it starts and its weights. */
  ghost predicate IsRow(sourceSize: nat, targetSize: nat, i: nat, start: nat, row: seq<nat>)
    requires targetSize > 0
  {
    start == FirstPixel(sourceSize, targetSize, i)
    && start + |row| == LastPixel(sourceSize, targetSize, i) + 1
    && forall j :: 0 <= j < |row| ==> row[j] == Weight(sourceSize, targetSize, i, start + j)
  }

  ghost predicate IsAxis(sourceSize: nat, targetSize: nat, starts: seq<nat>, weights: seq<seq<nat>>)
    requires targetSize > 0
  {
    |starts| == |weights| == targetSize
    && forall i :: 0 <= i < targetSize ==> IsRow(sourceSize, targetSize, i, starts[i], weights[i])
  }

  // ------------------------------------------------------------------
  // Products.

  lemma NextMultiple(n: nat, m: nat)
    ensures (n + 1) * m == n * m + m
  {
  }

  lemma {:induction false} Monotone(a: nat, b: nat, m: nat)
    requires a <= b
    ensures a * m <= b * m
    decreases b
  {
    if a < b {
      Monotone(a, b - 1, m);
      NextMultiple(b - 1, m);
    }
  }

  lemma Commutes(a: nat, b: nat)
    ensures a * b == b * a
  {
  }

  /** Division brackets the dividend. */
  lemma Bracket(v: nat, d: nat)
    requires d > 0
    ensures v / d * d <= v < v / d * d + d
  {
  }

  lemma BelowMultiple(v: nat, n: nat, d: nat)
    requires d > 0 && v < n * d
    ensures v / d < n
  {
    Bracket(v, d);
    if v / d >= n { Monotone(n, v / d, d); }
  }

  /** The pixels a target pixel touches: the first starts at or before it and
      ends in it, the last starts in it and ends at or after its end. */
  lemma Touches(sourceSize: nat, targetSize: nat, i: nat)
    requires sourceSize > 0 && i < targetSize
    ensures var first, last := FirstPixel(sourceSize, targetSize, i), LastPixel(sourceSize, targetSize, i);
            0 <= first <= last < sourceSize
            && first * targetSize <= i * sourceSize < (first + 1) * targetSize
            && last * targetSize < (i + 1) * sourceSize <= (last + 1) * targetSize
  {
    var s, t := sourceSize, targetSize;
    var first, last := FirstPixel(s, t, i), LastPixel(s, t, i);
    NextMultiple(i, s);
    Bracket(i * s, t);
    Bracket((i + 1) * s - 1, t);
    NextMultiple(first, t);
    NextMultiple(last, t);
    Monotone(i + 1, t, s);
    Commutes(t, s);
    BelowMultiple((i + 1) * s - 1, s, t);
    if last < first { Monotone(last + 1, first, t); }
  }

  /** Every stored weight is positive and at most one pixel of either size, and
      every weighted pixel lies in the source. */
  lemma RowPositiveInRange(sourceSize: nat, targetSize: nat, i: nat, start: nat, row: seq<nat>, j: nat)
    requires sourceSize > 0 && i < targetSize && IsRow(sourceSize, targetSize, i, start, row) && j < |row|
    ensures 0 < row[j] <= sourceSize && row[j] <= targetSize && start + j < sourceSize
  {
    var p := start + j;
    Touches(sourceSize, targetSize, i);
    var last := LastPixel(sourceSize, targetSize, i);
    Monotone(start + 1, p + 1, targetSize);
    Monotone(p, last, targetSize);
    NextMultiple(p, targetSize);
    NextMultiple(i, sourceSize);
  }

  // ------------------------------------------------------------------
  // Sums.

  function SumTo(row: seq<nat>, n: nat): nat
    requires n <= |row|
  {
    if n == 0 then 0 else SumTo(row, n - 1) + row[n - 1]
  }

  function Sum(row: seq<nat>): nat { SumTo(row, |row|) }

  /** The first n stored weights make up the part of target pixel i left of the
      end of source pixel start + n - 1. */
  lemma {:induction false} RowSumTo(sourceSize: nat, targetSize: nat, i: nat, start: nat, row: seq<nat>, n: nat)
    requires sourceSize > 0 && i < targetSize && IsRow(sourceSize, targetSize, i, start, row) && n <= |row|
    ensures SumTo(row, n) == Overlap(i * sourceSize, (i + 1) * sourceSize, start * targetSize, (start + n) * targetSize)
  {
    if n > 0 {
      RowSumTo(sourceSize, targetSize, i, start, row, n - 1);
      var p := start + n - 1;
      Monotone(start, p, targetSize);
      Monotone(p, p + 1, targetSize);
      OverlapAdds(start * targetSize, p * targetSize, (p + 1) * targetSize, i * sourceSize, (i + 1) * sourceSize);
    }
  }

  /** The weights of a target pixel add up to the source size. */
  lemma RowSum(sourceSize: nat, targetSize: nat, i: nat, start: nat, row: seq<nat>)
    requires sourceSize > 0 && i < targetSize && IsRow(sourceSize, targetSize, i, start, row)
    ensures Sum(row) == sourceSize
  {
    RowSumTo(sourceSize, targetSize, i, start, row, |row|);
    Touches(sourceSize, targetSize, i);
    NextMultiple(i, sourceSize);
  }

  /** What the stored rows give source pixel p in target pixel i. */
  function StoredWeight(start: nat, row: seq<nat>, p: nat): nat {
    if start <= p < start + |row| then row[p - start] else 0
  }

  lemma StoredIsWeight(sourceSize: nat, targetSize: nat, i: nat, start: nat, row: seq<nat>, p: nat)
    requires sourceSize > 0 && i < targetSize && IsRow(sourceSize, targetSize, i, start, row)
    ensures StoredWeight(start, row, p) == Weight(sourceSize, targetSize, i, p)
  {
    Touches(sourceSize, targetSize, i);
    if p < start {
      Monotone(p + 1, start, targetSize);
    } else if p >= start + |row| {
      Monotone(start + |row|, p, targetSize);
    }
  }

  /** What source pixel p gives to the first n target pixels. */
  function GivenTo(starts: seq<nat>, weights: seq<seq<nat>>, p: nat, n: nat): nat
    requires n <= |starts| == |weights|
  {
    if n == 0 then 0 else GivenTo(starts, weights, p, n - 1) + StoredWeight(starts[n - 1], weights[n - 1], p)
  }

  lemma {:induction false} GivenToFirst(sourceSize: nat, targetSize: nat, starts: seq<nat>, weights: seq<seq<nat>>,
                                        p: nat, n: nat)
    requires sourceSize > 0 && targetSize > 0 && IsAxis(sourceSize, targetSize, starts, weights) && n <= targetSize
    ensures GivenTo(starts, weights, p, n) == Overlap(0, n * sourceSize, p * targetSize, (p + 1) * targetSize)
  {
    if n > 0 {
      GivenToFirst(sourceSize, targetSize, starts, weights, p, n - 1);
      StoredIsWeight(sourceSize, targetSize, n - 1, starts[n - 1], weights[n - 1], p);
      Monotone(n - 1, n, sourceSize);
      OverlapAdds(0, (n - 1) * sourceSize, n * sourceSize, p * targetSize, (p + 1) * targetSize);
    }
  }

  /** Every source pixel gives away exactly the target size: none is counted
      more than another. */
  lemma ColumnSum(sourceSize: nat, targetSize: nat, starts: seq<nat>, weights: seq<seq<nat>>, p: nat)
    requires targetSize > 0 && IsAxis(sourceSize, targetSize, starts, weights) && p < sourceSize
    ensures GivenTo(starts, weights, p, targetSize) == targetSize
  {
    GivenToFirst(sourceSize, targetSize, starts, weights, p, targetSize);
    PixelInSource(sourceSize, targetSize, p);
    WholeOverlap(targetSize * sourceSize, p * targetSize, (p + 1) * targetSize);
  }

  lemma PixelInSource(sourceSize: nat, targetSize: nat, p: nat)
    requires p < sourceSize
    ensures p * targetSize <= (p + 1) * targetSize <= targetSize * sourceSize
            && (p + 1) * targetSize - p * targetSize == targetSize
  {
    Monotone(p + 1, sourceSize, targetSize);
    Commutes(sourceSize, targetSize);
    NextMultiple(p, targetSize);
  }

  lemma WholeOverlap(n: nat, low: nat, high: nat)
    requires low <= high <= n
    ensures Overlap(0, n, low, high) == high - low
  {
  }

  /** At equal sizes every target pixel is one source pixel. */
  lemma EqualSizes(size: nat, i: nat, start: nat, row: seq<nat>)
    requires i < size && IsRow(size, size, i, start, row)
    ensures start == i && row == [size]
  {
    Touches(size, size, i);
    if start < i { Monotone(start + 1, i, size); }
    if start > i { Monotone(i + 1, start, size); NextMultiple(i, size); }
    var last := LastPixel(size, size, i);
    if last > i { Monotone(i + 1, last, size); }
    NextMultiple(i, size);
  }

  // ------------------------------------------------------------------
  // The row of a target pixel, as a function.

  function RowTo(sourceSize: nat, targetSize: nat, i: nat, start: nat, n: nat): (row: seq<nat>)
    ensures |row| == n && forall j :: 0 <= j < n ==> row[j] == Weight(sourceSize, targetSize, i, start + j)
  {
    if n == 0 then []
    else RowTo(sourceSize, targetSize, i, start, n - 1) + [Weight(sourceSize, targetSize, i, start + n - 1)]
  }

  function RowOf(sourceSize: nat, targetSize: nat, i: nat): (row: seq<nat>)
    requires sourceSize > 0 && i < targetSize
    ensures IsRow(sourceSize, targetSize, i, FirstPixel(sourceSize, targetSize, i), row)
  {
    Touches(sourceSize, targetSize, i);
    var first := FirstPixel(sourceSize, targetSize, i);
    RowTo(sourceSize, targetSize, i, first, LastPixel(sourceSize, targetSize, i) + 1 - first)
  }

  lemma RowUnique(sourceSize: nat, targetSize: nat, i: nat, start: nat, row: seq<nat>)
    requires sourceSize > 0 && i < targetSize && IsRow(sourceSize, targetSize, i, start, row)
    ensures start == FirstPixel(sourceSize, targetSize, i) && row == RowOf(sourceSize, targetSize, i)
  {
  }

  // ------------------------------------------------------------------
  // As it runs.

  method BuildAxisWeights(sourceSize: nat, targetSize: nat) returns (starts: array<nat>, weights: array<seq<nat>>)
    requires sourceSize > 0 && targetSize > 0
    ensures fresh(starts) && fresh(weights) && IsAxis(sourceSize, targetSize, starts[..], weights[..])
  {
    starts := new nat[targetSize](_ => 0);
    weights := new seq<nat>[targetSize](_ => []);
    for i := 0 to targetSize
      invariant forall k :: 0 <= k < i ==> IsRow(sourceSize, targetSize, k, starts[k], weights[k])
    {
      var intervalStart: nat := i * sourceSize;
      var intervalEnd: nat := (i + 1) * sourceSize;
      Touches(sourceSize, targetSize, i);
      NextMultiple(i, sourceSize);
      var firstPixel: nat := intervalStart / targetSize;
      var lastPixel: nat := (intervalEnd - 1) / targetSize;
      starts[i] := firstPixel;
      weights[i] := PixelWeights(sourceSize, targetSize, i, firstPixel, lastPixel);
    }
  }

  method PixelWeights(sourceSize: nat, targetSize: nat, i: nat, firstPixel: nat, lastPixel: nat) returns (row: seq<nat>)
    requires sourceSize > 0 && i < targetSize
    requires firstPixel == FirstPixel(sourceSize, targetSize, i) && lastPixel == LastPixel(sourceSize, targetSize, i)
    ensures IsRow(sourceSize, targetSize, i, firstPixel, row)
  {
    var intervalStart, intervalEnd := i * sourceSize, (i + 1) * sourceSize;
    Touches(sourceSize, targetSize, i);
    var pixelWeights := new nat[lastPixel - firstPixel + 1](_ => 0);
    for j := 0 to pixelWeights.Length
      invariant forall k :: 0 <= k < j ==> pixelWeights[k] == Weight(sourceSize, targetSize, i, firstPixel + k)
    {
      var pixelStart := (firstPixel + j) * targetSize;
      var pixelEnd := pixelStart + targetSize;
      PixelMeets(sourceSize, targetSize, i, firstPixel + j);
      pixelWeights[j] := Min(intervalEnd, pixelEnd) - Max(intervalStart, pixelStart);
    }
    row := pixelWeights[..];
  }

  lemma PixelMeets(sourceSize: nat, targetSize: nat, i: nat, p: nat)
    requires sourceSize > 0 && i < targetSize
    requires FirstPixel(sourceSize, targetSize, i) <= p <= LastPixel(sourceSize, targetSize, i)
    ensures p * targetSize + targetSize == (p + 1) * targetSize
    ensures Min((i + 1) * sourceSize, (p + 1) * targetSize) > Max(i * sourceSize, p * targetSize)
  {
    Touches(sourceSize, targetSize, i);
    Monotone(FirstPixel(sourceSize, targetSize, i) + 1, p + 1, targetSize);
    Monotone(p, LastPixel(sourceSize, targetSize, i), targetSize);
    NextMultiple(p, targetSize);
    NextMultiple(i, sourceSize);
  }
}
