/** Go's sort package on slices, and the order of strings it uses. */
module Sorting {
  ghost predicate TotalOrder<T(!new)>(leq: (T, T) -> bool) {
    && (forall a, b :: leq(a, b) || leq(b, a))
    && (forall a, b, c :: leq(a, b) && leq(b, c) ==> leq(a, c))
  }

  ghost predicate Sorted<T>(xs: seq<T>, leq: (T, T) -> bool) {
    forall i, j | 0 <= i < j < |xs| :: leq(xs[i], xs[j])
  }

  function Insert<T>(xs: seq<T>, x: T, leq: (T, T) -> bool): seq<T> {
    if xs == [] || leq(x, xs[0]) then [x] + xs else [xs[0]] + Insert(xs[1..], x, leq)
  }

  lemma {:induction false} InsertSorted<T(!new)>(xs: seq<T>, x: T, leq: (T, T) -> bool)
    requires TotalOrder(leq) && Sorted(xs, leq)
    ensures Sorted(Insert(xs, x, leq), leq) && multiset(Insert(xs, x, leq)) == multiset(xs) + multiset{x}
    decreases |xs|
  {
    if xs != [] {
      assert xs == [xs[0]] + xs[1..];
      if !leq(x, xs[0]) {
        var rest := Insert(xs[1..], x, leq);
        InsertSorted(xs[1..], x, leq);
        forall y | y in rest ensures leq(xs[0], y) {
          assert y in multiset(rest);
          assert y == x || y in xs[1..];
        }
      }
    }
  }

  method Sort<T(!new)>(xs: seq<T>, leq: (T, T) -> bool) returns (ys: seq<T>)
    requires TotalOrder(leq)
    ensures Sorted(ys, leq) && multiset(ys) == multiset(xs)
  {
    ys := [];
    for i := 0 to |xs|
      invariant Sorted(ys, leq) && multiset(ys) == multiset(xs[..i])
    {
      InsertSorted(ys, xs[i], leq);
      assert xs[..i + 1] == xs[..i] + [xs[i]];
      ys := Insert(ys, xs[i], leq);
    }
    assert xs[..|xs|] == xs;
  }

  /** A list and a rearrangement of it have the same members. */
  lemma SameMembers<T>(xs: seq<T>, ys: seq<T>)
    requires multiset(xs) == multiset(ys)
    ensures |xs| == |ys| && forall x :: x in xs <==> x in ys
  {
    assert |multiset(xs)| == |multiset(ys)|;
    forall x ensures x in xs <==> x in ys {
      assert x in multiset(xs) <==> x in multiset(ys);
    }
  }

  ghost predicate Distinct<T>(xs: seq<T>) {
    forall i, j | 0 <= i < j < |xs| :: xs[i] != xs[j]
  }

  lemma {:induction false} DistinctCounts<T>(xs: seq<T>)
    ensures Distinct(xs) <==> forall x | x in multiset(xs) :: multiset(xs)[x] == 1
    decreases |xs|
  {
    if xs != [] {
      var init, last := xs[..|xs| - 1], xs[|xs| - 1];
      assert xs == init + [last];
      DistinctCounts(init);
      if last in init {
        assert multiset(xs)[last] >= 2;
      } else {
        assert forall x | x in multiset(xs) :: multiset(xs)[x] == if x == last then 1 else multiset(init)[x];
        if Distinct(xs) { assert Distinct(init); }
      }
    }
  }

  lemma DistinctPermuted<T>(xs: seq<T>, ys: seq<T>)
    requires multiset(xs) == multiset(ys) && Distinct(xs)
    ensures Distinct(ys)
  {
    DistinctCounts(xs);
    DistinctCounts(ys);
  }

  /** The order of Go strings. */
  predicate Leq(a: string, b: string) {
    a == "" || (b != "" && (a[0] < b[0] || (a[0] == b[0] && Leq(a[1..], b[1..]))))
  }

  lemma LeqOrder()
    ensures TotalOrder(Leq)
  {
    forall a: string, b: string ensures Leq(a, b) || Leq(b, a) { LeqTotal(a, b); }
    forall a: string, b: string, c: string | Leq(a, b) && Leq(b, c) ensures Leq(a, c) { LeqTransitive(a, b, c); }
  }

  lemma {:induction false} LeqTotal(a: string, b: string)
    ensures Leq(a, b) || Leq(b, a)
  {
    if a != "" && b != "" { LeqTotal(a[1..], b[1..]); }
  }

  lemma {:induction false} LeqTransitive(a: string, b: string, c: string)
    requires Leq(a, b) && Leq(b, c)
    ensures Leq(a, c)
  {
    if a != "" && a[0] == b[0] && b[0] == c[0] { LeqTransitive(a[1..], b[1..], c[1..]); }
  }

  lemma {:induction false} LeqAntisymmetric(a: string, b: string)
    requires Leq(a, b) && Leq(b, a)
    ensures a == b
  {
    if a != "" && b != "" {
      LeqAntisymmetric(a[1..], b[1..]);
      assert a == [a[0]] + a[1..] && b == [b[0]] + b[1..];
    }
  }

  /** A string sorts before everything it is a proper prefix of, and never after it. */
  lemma {:induction false} PrefixFirst(a: string, b: string)
    requires a < b
    ensures !Leq(b, a)
  {
    if a != "" {
      assert a[0] == b[0];
      assert a[1..] < b[1..];
      PrefixFirst(a[1..], b[1..]);
    }
  }
}
