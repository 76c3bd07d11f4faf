/**
 Sorting by a comparator. The library sort is unstable, so all that is known of
 its output is that it is a sorted permutation; where the comparator is total
 on the elements that determines the output.
 */
module Sorting {
  ghost predicate SortedBy<T>(less: (T, T) -> bool, s: seq<T>) {
    forall i, j :: 0 <= i < j < |s| ==> !less(s[j], s[i])
  }

  /** A strict order that decides any two different elements of the domain. */
  ghost predicate TotalOn<T(!new)>(less: (T, T) -> bool, domain: iset<T>) {
    && (forall x, y :: x in domain && y in domain && less(x, y) ==> !less(y, x))
    && (forall x, y :: x in domain && y in domain && x != y ==> less(x, y) || less(y, x))
    && (forall x, y, z :: x in domain && y in domain && z in domain && less(x, y) && less(y, z) ==> less(x, z))
  }

  ghost predicate Within<T(!new)>(s: seq<T>, domain: iset<T>) { forall x :: x in s ==> x in domain }

  function Insert<T>(less: (T, T) -> bool, x: T, s: seq<T>): (r: seq<T>)
    ensures multiset(r) == multiset(s) + multiset{x}
    ensures x in r && (forall y <- s :: y in r) && (forall y <- r :: y == x || y in s)
  {
    if s == [] then [x]
    else if less(s[0], x) then
      assert s == [s[0]] + s[1..];
      [s[0]] + Insert(less, x, s[1..])
    else [x] + s
  }

  function SortBy<T>(less: (T, T) -> bool, s: seq<T>): (r: seq<T>)
    ensures multiset(r) == multiset(s)
    ensures (forall y <- s :: y in r) && (forall y <- r :: y in s)
  {
    if s == [] then []
    else
      assert s == [s[0]] + s[1..];
      Insert(less, s[0], SortBy(less, s[1..]))
  }

  lemma SortedCons<T(!new)>(less: (T, T) -> bool, x: T, s: seq<T>)
    requires SortedBy(less, s) && forall y :: y in s ==> !less(y, x)
    ensures SortedBy(less, [x] + s)
  {
  }

  lemma {:induction false} InsertSorted<T(!new)>(less: (T, T) -> bool, x: T, s: seq<T>, domain: iset<T>)
    requires TotalOn(less, domain) && x in domain && Within(s, domain)
    requires SortedBy(less, s)
    ensures SortedBy(less, Insert(less, x, s))
  {
    if s != [] {
      var first := s[0];
      assert s == [first] + s[1..];
      if less(first, x) {
        InsertSorted(less, x, s[1..], domain);
        SortedCons(less, first, Insert(less, x, s[1..]));
      } else {
        SortedCons(less, x, s);
      }
    }
  }

  lemma {:induction false} SortBySorts<T(!new)>(less: (T, T) -> bool, s: seq<T>, domain: iset<T>)
    requires TotalOn(less, domain) && Within(s, domain)
    ensures SortedBy(less, SortBy(less, s))
  {
    if s != [] {
      SortBySorts(less, s[1..], domain);
      InsertSorted(less, s[0], SortBy(less, s[1..]), domain);
    }
  }

  lemma SameLength<T>(a: seq<T>, b: seq<T>)
    requires multiset(a) == multiset(b)
    ensures |a| == |b|
  {
    assert |a| == |multiset(a)| == |multiset(b)| == |b|;
  }

  lemma WithoutFirst<T>(s: seq<T>)
    requires s != []
    ensures s == [s[0]] + s[1..] && multiset(s[1..]) == multiset(s) - multiset{s[0]}
  {
    assert s == [s[0]] + s[1..];
  }

  /** Any two sorted permutations of the same elements are equal. */
  lemma {:induction false} SortedPermutationUnique<T(!new)>(less: (T, T) -> bool, a: seq<T>, b: seq<T>, domain: iset<T>)
    requires multiset(a) == multiset(b) && TotalOn(less, domain) && Within(a, domain)
    requires SortedBy(less, a) && SortedBy(less, b)
    ensures a == b
  {
    SameLength(a, b);
    if a != [] {
      SameFirst(less, a, b, domain);
      WithoutFirst(a);
      WithoutFirst(b);
      SortedPermutationUnique(less, a[1..], b[1..], domain);
    }
  }

  lemma SameFirst<T(!new)>(less: (T, T) -> bool, a: seq<T>, b: seq<T>, domain: iset<T>)
    requires a != [] && b != [] && multiset(a) == multiset(b) && TotalOn(less, domain) && Within(a, domain)
    requires SortedBy(less, a) && SortedBy(less, b)
    ensures a[0] == b[0]
  {
    assert a[0] in multiset(b) && b[0] in multiset(a);
    var i :| 0 <= i < |b| && b[i] == a[0];
    var j :| 0 <= j < |a| && a[j] == b[0];
  }

  /** Code-unit order of strings. */
  predicate StringLess(a: string, b: string) {
    if b == [] then false
    else if a == [] then true
    else a[0] < b[0] || (a[0] == b[0] && StringLess(a[1..], b[1..]))
  }

  /** The strings agree up to n, where the first ends or has the lesser unit. */
  predicate LessFrom(a: string, b: string, n: nat) {
    n <= |a| && n < |b| && a[..n] == b[..n] && (n == |a| || a[n] < b[n])
  }

  lemma {:induction false} StringLessExactly(a: string, b: string)
    ensures StringLess(a, b) <==> exists n: nat :: LessFrom(a, b, n)
  {
    if a == [] && b != [] {
      assert LessFrom(a, b, 0);
    } else if a != [] && b != [] {
      StringLessExactly(a[1..], b[1..]);
      if a[0] < b[0] { assert LessFrom(a, b, 0); }
      if a[0] == b[0] {
        forall n: nat | LessFrom(a[1..], b[1..], n) ensures LessFrom(a, b, n + 1) {
          assert a[..n + 1] == [a[0]] + a[1..][..n] && b[..n + 1] == [b[0]] + b[1..][..n];
        }
      }
      forall n: nat | LessFrom(a, b, n) ensures a[0] < b[0] || (a[0] == b[0] && LessFrom(a[1..], b[1..], n - 1)) {
        if n > 0 {
          assert a[0] == a[..n][0] == b[..n][0] == b[0];
          assert a[1..][..n - 1] == a[..n][1..] && b[1..][..n - 1] == b[..n][1..];
        }
      }
    }
  }

  lemma {:induction false} StringLessTotal(a: string, b: string)
    ensures a != b ==> StringLess(a, b) || StringLess(b, a)
    ensures StringLess(a, b) ==> !StringLess(b, a)
  {
    if a != [] && b != [] {
      StringLessTotal(a[1..], b[1..]);
      assert a == [a[0]] + a[1..] && b == [b[0]] + b[1..];
    }
  }

  lemma {:induction false} StringLessTransitive(a: string, b: string, c: string)
    requires StringLess(a, b) && StringLess(b, c)
    ensures StringLess(a, c)
  {
    if a != [] && b != [] && c != [] && a[0] == b[0] == c[0] {
      StringLessTransitive(a[1..], b[1..], c[1..]);
    }
  }

  lemma StringLessOrder()
    ensures forall a, b :: a != b ==> StringLess(a, b) || StringLess(b, a)
    ensures forall a, b :: StringLess(a, b) ==> !StringLess(b, a)
    ensures forall a, b, c :: StringLess(a, b) && StringLess(b, c) ==> StringLess(a, c)
  {
    forall a, b
      ensures a != b ==> StringLess(a, b) || StringLess(b, a)
      ensures StringLess(a, b) ==> !StringLess(b, a)
    {
      StringLessTotal(a, b);
    }
    forall a, b, c | StringLess(a, b) && StringLess(b, c)
      ensures StringLess(a, c)
    {
      StringLessTransitive(a, b, c);
    }
  }
}
