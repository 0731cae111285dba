/** Sums over sequences, and why the order of the elements does not matter. */
module Sums {

  function SumBy<T>(s: seq<T>, f: T -> int): int {
    if s == [] then 0 else f(s[0]) + SumBy(s[1..], f)
  }

  lemma {:induction false} Concat<T>(a: seq<T>, b: seq<T>, f: T -> int)
    ensures SumBy(a + b, f) == SumBy(a, f) + SumBy(b, f)
  {
    if a == [] {
      assert a + b == b;
    } else {
      assert (a + b)[1..] == a[1..] + b;
      Concat(a[1..], b, f);
    }
  }

  lemma Append<T>(a: seq<T>, x: T, f: T -> int)
    ensures SumBy(a + [x], f) == SumBy(a, f) + f(x)
  {
    Concat(a, [x], f);
    assert SumBy([x], f) == f(x) + SumBy([], f);
  }

  /** The first element of p, found in q: taking it out of both leaves the same elements. */
  lemma TakeFirst<T>(p: seq<T>, q: seq<T>) returns (i: nat)
    requires p != [] && multiset(p) == multiset(q)
    ensures i < |q| && q[i] == p[0]
    ensures multiset(p[1..]) == multiset(q[..i] + q[i + 1..])
  {
    assert p[0] in multiset(q);
    i :| 0 <= i < |q| && q[i] == p[0];
    assert p == [p[0]] + p[1..];
    assert q == q[..i] + [q[i]] + q[i + 1..];
    assert multiset(p[1..]) == multiset(p) - multiset{p[0]};
    assert multiset(q[..i] + q[i + 1..]) == multiset(q) - multiset{q[i]};
  }

  lemma {:induction false} Permutation<T>(p: seq<T>, q: seq<T>, f: T -> int)
    requires multiset(p) == multiset(q)
    ensures SumBy(p, f) == SumBy(q, f)
    decreases |p|
  {
    if p == [] {
      assert |multiset(q)| == 0;
      assert q == [];
    } else {
      var i := TakeFirst(p, q);
      var a, b := q[..i], q[i + 1..];
      Permutation(p[1..], a + b, f);
      assert q == a + ([q[i]] + b);
      Concat(a, [q[i]] + b, f);
      Concat(a, b, f);
      assert ([q[i]] + b)[1..] == b;
    }
  }

  predicate NoDuplicates<T(==)>(s: seq<T>) {
    forall i, j :: 0 <= i < j < |s| ==> s[i] != s[j]
  }

  lemma {:induction false} OccursOnce<T>(s: seq<T>, x: T)
    requires NoDuplicates(s)
    ensures multiset(s)[x] == if x in s then 1 else 0
  {
    if s != [] {
      OccursOnce(s[1..], x);
      assert s == [s[0]] + s[1..];
    }
  }

  lemma SameElements<T>(p: seq<T>, q: seq<T>)
    requires NoDuplicates(p) && NoDuplicates(q)
    requires forall x :: x in p <==> x in q
    ensures multiset(p) == multiset(q) && |p| == |q|
  {
    forall x: T ensures multiset(p)[x] == multiset(q)[x] {
      OccursOnce(p, x);
      OccursOnce(q, x);
    }
    assert multiset(p) == multiset(q);
    assert |p| == |multiset(p)| && |q| == |multiset(q)|;
  }

  // ---------------------------------------------------------------- sums over row numbers

  /** f(0) + ... + f(n - 1). */
  function SumTo(n: nat, f: nat -> int): int {
    if n == 0 then 0 else SumTo(n - 1, f) + f(n - 1)
  }

  lemma {:induction false} Congruent(n: nat, f: nat -> int, g: nat -> int)
    requires forall i: nat :: i < n ==> f(i) == g(i)
    ensures SumTo(n, f) == SumTo(n, g)
  {
    if n > 0 {
      Congruent(n - 1, f, g);
    }
  }

  /** Two summands that differ in row k only. */
  lemma {:induction false} DifferAt(n: nat, f: nat -> int, g: nat -> int, k: nat)
    requires k < n && forall i: nat :: i < n && i != k ==> f(i) == g(i)
    ensures SumTo(n, g) == SumTo(n, f) - f(k) + g(k)
  {
    if k == n - 1 {
      Congruent(n - 1, f, g);
    } else {
      DifferAt(n - 1, f, g, k);
    }
  }

  lemma {:induction false} SumOfSums(n: nat, f: nat -> int, g: nat -> int, h: nat -> int)
    requires forall i: nat :: i < n ==> h(i) == f(i) + g(i)
    ensures SumTo(n, h) == SumTo(n, f) + SumTo(n, g)
  {
    if n > 0 {
      SumOfSums(n - 1, f, g, h);
    }
  }

  /** A sum of summands of one sign is zero only when all of them are. */
  lemma {:induction false} NonNegative(n: nat, f: nat -> int)
    requires forall i: nat :: i < n ==> f(i) >= 0
    ensures SumTo(n, f) >= 0
    ensures SumTo(n, f) == 0 <==> forall i: nat :: i < n ==> f(i) == 0
  {
    if n > 0 {
      NonNegative(n - 1, f);
    }
  }
}
