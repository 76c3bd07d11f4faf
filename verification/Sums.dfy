/** Sums of a measure over the elements of a sequence. */
module Sums {
  /** The sum of `f` over the first n elements. */
  function SumTo<W>(ws: seq<W>, f: W -> nat, n: nat): nat
    requires n <= |ws|
  {
    if n == 0 then 0 else SumTo(ws, f, n - 1) + f(ws[n - 1])
  }

  function Sum<W>(ws: seq<W>, f: W -> nat): nat { SumTo(ws, f, |ws|) }

  lemma {:induction false} SumToUpdate<W>(ws: seq<W>, i: nat, w: W, f: W -> nat, n: nat)
    requires i < |ws| && n <= |ws|
    ensures SumTo(ws[i := w], f, n) + (if i < n then f(ws[i]) else 0) == SumTo(ws, f, n) + (if i < n then f(w) else 0)
  {
    if n > 0 { SumToUpdate(ws, i, w, f, n - 1); }
  }

  lemma SumUpdate<W>(ws: seq<W>, i: nat, w: W, f: W -> nat)
    requires i < |ws|
    ensures Sum(ws[i := w], f) + f(ws[i]) == Sum(ws, f) + f(w)
  {
    SumToUpdate(ws, i, w, f, |ws|);
  }

  lemma {:induction false} PositiveSum<W>(ws: seq<W>, f: W -> nat, n: nat) returns (i: nat)
    requires n <= |ws| && SumTo(ws, f, n) > 0
    ensures i < n && f(ws[i]) > 0
  {
    i := n - 1;
    if f(ws[n - 1]) == 0 { i := PositiveSum(ws, f, n - 1); }
  }

  lemma {:induction false} ZeroSum<W>(ws: seq<W>, f: W -> nat, n: nat)
    requires n <= |ws| && forall i :: 0 <= i < n ==> f(ws[i]) == 0
    ensures SumTo(ws, f, n) == 0
  {
    if n > 0 { ZeroSum(ws, f, n - 1); }
  }

  lemma {:induction false} SumToPrefix<W>(a: seq<W>, b: seq<W>, f: W -> nat, n: nat)
    requires n <= |a| && n <= |b| && forall i :: 0 <= i < n ==> a[i] == b[i]
    ensures SumTo(a, f, n) == SumTo(b, f, n)
  {
    if n > 0 { SumToPrefix(a, b, f, n - 1); }
  }

  lemma SumAppend<W>(ws: seq<W>, w: W, f: W -> nat)
    ensures Sum(ws + [w], f) == Sum(ws, f) + f(w)
  {
    SumToPrefix(ws + [w], ws, f, |ws|);
  }
}
