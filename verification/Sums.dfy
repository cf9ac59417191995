/** Sums over finite maps: the `SUM(...)` queries, and totals over requests and chunks. */
module Sums {
  import opened Types

  ghost function Total(m: map<Id, nat>): nat {
    if m == map[] then 0
    else
      var k :| k in m;
      m[k] + Total(m - {k})
  }

  /** Whichever entry is taken first, the sum is the same. */
  lemma {:induction false} TotalRemove(m: map<Id, nat>, k: Id)
    requires k in m
    ensures Total(m) == m[k] + Total(m - {k})
    decreases |m|
  {
    var j :| j in m && Total(m) == m[j] + Total(m - {j});
    if j != k {
      TotalRemove(m - {j}, k);
      TotalRemove(m - {k}, j);
      assert m - {j} - {k} == m - {k} - {j};
    }
  }

  lemma TotalUpdate(m: map<Id, nat>, k: Id, v: nat)
    ensures Total(m[k := v]) == Total(m) + v - if k in m then m[k] else 0
  {
    var m' := m[k := v];
    TotalRemove(m', k);
    if k in m {
      TotalRemove(m, k);
      assert m' - {k} == m - {k};
    } else {
      assert m' - {k} == m;
    }
  }

  lemma TotalDrop(m: map<Id, nat>, k: Id)
    ensures Total(m - {k}) == Total(m) - if k in m then m[k] else 0
  {
    if k in m { TotalRemove(m, k); } else { assert m - {k} == m; }
  }

  /** A sum over some of the entries, each no larger, is no larger. */
  lemma {:induction false} TotalMono(small: map<Id, nat>, big: map<Id, nat>)
    requires forall k | k in small :: k in big && small[k] <= big[k]
    ensures Total(small) <= Total(big)
    decreases |small|
  {
    if small != map[] {
      var k :| k in small;
      TotalRemove(small, k);
      TotalRemove(big, k);
      TotalMono(small - {k}, big - {k});
    }
  }

  lemma {:induction false} TotalApart(a: map<Id, nat>, b: map<Id, nat>)
    requires a.Keys !! b.Keys
    ensures Total(a + b) == Total(a) + Total(b)
    decreases |b|
  {
    if b == map[] {
      assert a + b == a;
    } else {
      var k :| k in b;
      var rest: map<Id, nat>, all: map<Id, nat> := b - {k}, a + b;
      MinusOne(a, b, k);
      TotalApart(a, rest);
      TotalRemove(b, k);
      TotalRemove(all, k);
    }
  }

  lemma MinusOne(a: map<Id, nat>, b: map<Id, nat>, k: Id)
    requires a.Keys !! b.Keys && k in b
    ensures (a + b) - {k} == a + (b - {k}) && a.Keys !! (b - {k}).Keys && (a + b)[k] == b[k]
  {
  }

  /** Sums do not depend on the keys: `f` renames those of `a` to those of `b`. */
  ghost predicate Renamed(a: map<Id, nat>, b: map<Id, nat>, f: map<Id, Id>) {
    && (forall x | x in a :: x in f && f[x] in b && b[f[x]] == a[x])
    && (forall x, y | x in a && y in a && x != y :: f[x] != f[y])
    && (forall z | z in b :: exists x :: x in a && f[x] == z)
  }

  lemma {:induction false} TotalRenamed(a: map<Id, nat>, b: map<Id, nat>, f: map<Id, Id>)
    requires Renamed(a, b, f)
    ensures Total(a) == Total(b)
    decreases |a|
  {
    if a == map[] {
      assert b == map[];
    } else {
      var x :| x in a;
      var a', b' := a - {x}, b - {f[x]};
      RenamedRest(a, b, f, x);
      TotalRenamed(a', b', f);
      TotalRemove(a, x);
      TotalRemove(b, f[x]);
    }
  }

  lemma RenamedRest(a: map<Id, nat>, b: map<Id, nat>, f: map<Id, Id>, x: Id)
    requires Renamed(a, b, f) && x in a
    ensures Renamed(a - {x}, b - {f[x]}, f)
  {
    forall z | z in b - {f[x]} ensures exists y :: y in a - {x} && f[y] == z {
      var y :| y in a && f[y] == z;
      assert y in a - {x};
    }
  }

  lemma {:induction false} DropZeros(m: map<Id, nat>)
    ensures Total(map k | k in m && m[k] > 0 :: m[k]) == Total(m)
    decreases |m|
  {
    var kept := map k | k in m && m[k] > 0 :: m[k];
    if m == map[] {
      assert kept == map[];
    } else {
      var k :| k in m;
      var rest := m - {k};
      DropZeros(rest);
      TotalRemove(m, k);
      TotalDrop(kept, k);
      assert kept - {k} == map j | j in rest && rest[j] > 0 :: rest[j];
    }
  }

  method Sum(m: map<Id, nat>) returns (total: nat)
    ensures total == Total(m)
  {
    total := 0;
    var rest := m;
    while rest != map[]
      invariant total + Total(rest) == Total(m)
      decreases |rest|
    {
      var k :| k in rest;
      TotalRemove(rest, k);
      total := total + rest[k];
      rest := rest - {k};
    }
  }
}
