/** The parent relation of the `files` table: chains of parents, subtrees, and what
    inserting, deleting and moving a row does to them. Nothing here mentions how the
    service walks the tree; its walks are proved to compute these sets. */
module Forest {
  import opened Types

  type Files = map<Id, File>

  /** The row reached from `x` after `n` steps to the parent, as long as every row on the
      way is in the table. */
  ghost function Up(m: Files, x: Id, n: nat): Option<Id>
    decreases n
  {
    if x !in m then None
    else if n == 0 then Some(x)
    else match m[x].parent
      case None => None
      case Some(p) => Up(m, p, n - 1)
  }

  /** `r` is `x` or one of its ancestors. */
  ghost predicate Under(m: Files, r: Id, x: Id) {
    exists n: nat :: Up(m, x, n) == Some(r)
  }

  ghost function Subtree(m: Files, r: Id): set<Id> {
    set x | x in m && Under(m, r, x)
  }

  /** No row lies under one of its own children. */
  ghost predicate Acyclic(m: Files) {
    forall x | x in m && m[x].parent.Some? :: !Under(m, x, m[x].parent.value)
  }

  predicate Active(f: File) { f.deletedAt.None? }

  /** The rows GetFile and ListChildren see. */
  ghost function Live(m: Files): Files {
    map x | x in m && Active(m[x]) :: m[x]
  }

  /** The rows ListTrash returns for a namespace. */
  ghost function Trashed(m: Files, ns: string): Files {
    map x | x in m && !Active(m[x]) && m[x].ns == ns :: m[x]
  }

  /** One step of the definition of Under, in both directions. */
  lemma UnderStep(m: Files, r: Id, x: Id)
    ensures Under(m, r, x) <==>
            x in m && (x == r || (m[x].parent.Some? && Under(m, r, m[x].parent.value)))
  {
    if Under(m, r, x) {
      var n: nat :| Up(m, x, n) == Some(r);
      if n > 0 {
        assert Up(m, m[x].parent.value, n - 1) == Some(r);
      }
    }
    if x in m && x == r {
      assert Up(m, x, 0) == Some(r);
    }
    if x in m && m[x].parent.Some? && Under(m, r, m[x].parent.value) {
      var n: nat :| Up(m, m[x].parent.value, n) == Some(r);
      assert Up(m, x, n + 1) == Some(r);
    }
  }

  lemma {:induction false} UpTop(m: Files, x: Id, n: nat, r: Id)
    requires Up(m, x, n) == Some(r)
    ensures x in m && r in m
    decreases n
  {
    if n > 0 { UpTop(m, m[x].parent.value, n - 1, r); }
  }

  lemma UnderIn(m: Files, r: Id, x: Id)
    requires Under(m, r, x)
    ensures x in m && r in m
  {
    var n: nat :| Up(m, x, n) == Some(r);
    UpTop(m, x, n, r);
  }

  lemma {:induction false} UpAdd(m: Files, x: Id, a: nat, y: Id, b: nat)
    requires Up(m, x, a) == Some(y)
    ensures Up(m, x, a + b) == Up(m, y, b)
    decreases a
  {
    if a > 0 { UpAdd(m, m[x].parent.value, a - 1, y, b); }
  }

  lemma UnderTransitive(m: Files, r: Id, y: Id, x: Id)
    requires Under(m, r, y) && Under(m, y, x)
    ensures Under(m, r, x)
  {
    var a: nat :| Up(m, x, a) == Some(y);
    var b: nat :| Up(m, y, b) == Some(r);
    UpAdd(m, x, a, y, b);
    assert Up(m, x, a + b) == Some(r);
  }

  /** A chain is a line: of two ancestors of `x`, one is under the other. */
  lemma UnderLinear(m: Files, a: Id, b: Id, x: Id)
    requires Under(m, a, x) && Under(m, b, x)
    ensures Under(m, a, b) || Under(m, b, a)
  {
    var i: nat :| Up(m, x, i) == Some(a);
    var j: nat :| Up(m, x, j) == Some(b);
    if i <= j {
      UpAdd(m, x, i, a, j - i);
      assert Up(m, a, j - i) == Some(b);
    } else {
      UpAdd(m, x, j, b, i - j);
      assert Up(m, b, i - j) == Some(a);
    }
  }

  /** A row reached from itself in one or more steps is a cycle. */
  lemma LoopIsCycle(m: Files, x: Id, n: nat)
    requires n > 0 && Up(m, x, n) == Some(x)
    ensures !Acyclic(m)
  {
  }

  /** The rows of a smaller table that are under `r` were under `r` before. */
  lemma {:induction false} UpMono(m: Files, m': Files, x: Id, n: nat, r: Id)
    requires forall y | y in m' :: y in m && m[y].parent == m'[y].parent
    requires Up(m', x, n) == Some(r)
    ensures Up(m, x, n) == Some(r)
    decreases n
  {
    if n > 0 { UpMono(m, m', m'[x].parent.value, n - 1, r); }
  }

  lemma UnderMono(m: Files, m': Files, r: Id, x: Id)
    requires forall y | y in m' :: y in m && m[y].parent == m'[y].parent
    requires Under(m', r, x)
    ensures Under(m, r, x)
  {
    var n: nat :| Up(m', x, n) == Some(r);
    UpMono(m, m', x, n, r);
  }

  lemma AcyclicMono(m: Files, m': Files)
    requires Acyclic(m)
    requires forall y | y in m' :: y in m && m[y].parent == m'[y].parent
    ensures Acyclic(m')
  {
    forall x | x in m' && m'[x].parent.Some? ensures !Under(m', x, m'[x].parent.value) {
      if Under(m', x, m'[x].parent.value) { UnderMono(m, m', x, m'[x].parent.value); }
    }
  }

  lemma SmallerSet(a: set<Id>, b: set<Id>)
    requires a < b
    ensures |a| < |b|
  {
    assert b == a + (b - a);
  }

  /** Below an acyclic row everything is smaller: the recursive walks terminate. */
  lemma ChildSubtreeSmaller(m: Files, d: Id, c: Id)
    requires Acyclic(m) && d in m && c in m && m[c].parent == Some(d)
    ensures Subtree(m, c) < Subtree(m, d)
  {
    forall x | x in Subtree(m, c) ensures x in Subtree(m, d) {
      UnderStep(m, d, d);
      UnderStep(m, d, c);
      UnderTransitive(m, d, c, x);
    }
    UnderStep(m, d, d);
    assert d in Subtree(m, d) && d !in Subtree(m, c);
  }

  /** The subtree of `d` is `d` and the subtrees of its children. */
  lemma SubtreeSplit(m: Files, d: Id, x: Id)
    requires d in m
    ensures x in Subtree(m, d) <==>
            x == d || exists c :: c in m && m[c].parent == Some(d) && x in Subtree(m, c)
  {
    UnderStep(m, d, d);
    if x in Subtree(m, d) && x != d {
      var n: nat :| Up(m, x, n) == Some(d);
      var c := ChildOnChain(m, d, x, n);
    }
    forall c | c in m && m[c].parent == Some(d) && x in Subtree(m, c) ensures x in Subtree(m, d) {
      UnderStep(m, d, c);
      UnderTransitive(m, d, c, x);
    }
  }

  lemma {:induction false} ChildOnChain(m: Files, d: Id, x: Id, n: nat) returns (c: Id)
    requires Up(m, x, n) == Some(d) && n > 0
    ensures c in m && m[c].parent == Some(d) && Under(m, c, x) && x in m
    decreases n
  {
    if n == 1 {
      c := x;
      assert Up(m, m[x].parent.value, 0) == Some(d);
      UnderStep(m, x, x);
    } else {
      c := ChildOnChain(m, d, m[x].parent.value, n - 1);
      UnderStep(m, c, x);
    }
  }

  /** Subtrees of two children of the same row share nothing. */
  lemma SiblingsDisjoint(m: Files, d: Id, a: Id, b: Id, x: Id)
    requires Acyclic(m) && a in m && b in m && a != b
    requires m[a].parent == Some(d) && m[b].parent == Some(d)
    ensures !(x in Subtree(m, a) && x in Subtree(m, b))
  {
    if x in Subtree(m, a) && x in Subtree(m, b) {
      UnderLinear(m, a, b, x);
      UnderStep(m, a, b);
      UnderStep(m, b, a);
    }
  }

  /** Deleting rows that are not below `c`'s subtree's chains leaves that subtree alone. */
  lemma {:induction false} UpKept(m: Files, gone: set<Id>, x: Id, n: nat, r: Id)
    requires Up(m, x, n) == Some(r)
    requires forall y | y in gone && y in m :: !Under(m, r, y)
    ensures Up(m - gone, x, n) == Some(r)
    decreases n
  {
    assert Under(m, r, x);
    if n > 0 { UpKept(m, gone, m[x].parent.value, n - 1, r); }
  }

  lemma SubtreeKept(m: Files, gone: set<Id>, r: Id)
    requires forall y | y in gone && y in m :: !Under(m, r, y)
    ensures Subtree(m - gone, r) == Subtree(m, r)
  {
    forall x | x in Subtree(m, r) ensures x in Subtree(m - gone, r) {
      var n: nat :| Up(m, x, n) == Some(r);
      UpKept(m, gone, x, n, r);
    }
    forall x | x in Subtree(m - gone, r) ensures x in Subtree(m, r) {
      UnderMono(m, m - gone, r, x);
    }
  }

  /** Inserting a row nobody points at puts only that row under anything new. */
  lemma {:induction false} UpAddLeaf(m: Files, x: Id, f: File, y: Id, n: nat)
    requires x !in m && y != x
    requires forall z | z in m :: m[z].parent != Some(x)
    ensures Up(m[x := f], y, n) == Up(m, y, n)
    decreases n
  {
    if y in m && n > 0 && m[y].parent.Some? { UpAddLeaf(m, x, f, m[y].parent.value, n - 1); }
  }

  lemma UnderAddLeaf(m: Files, x: Id, f: File, r: Id, y: Id)
    requires x !in m && f.parent != Some(x)
    requires forall z | z in m :: m[z].parent != Some(x)
    ensures Under(m[x := f], r, y) <==>
            if y == x then r == x || (f.parent.Some? && Under(m, r, f.parent.value))
            else Under(m, r, y)
  {
    var m' := m[x := f];
    forall z: Id, n: nat | z != x ensures Up(m', z, n) == Up(m, z, n) { UpAddLeaf(m, x, f, z, n); }
    forall z: Id | z != x ensures Under(m', r, z) <==> Under(m, r, z) {
      if Under(m, r, z) { var n: nat :| Up(m, z, n) == Some(r); assert Up(m', z, n) == Some(r); }
      if Under(m', r, z) { var n: nat :| Up(m', z, n) == Some(r); assert Up(m, z, n) == Some(r); }
    }
    UnderStep(m', r, x);
  }

  lemma AcyclicAddLeaf(m: Files, x: Id, f: File)
    requires Acyclic(m) && x !in m && f.parent != Some(x)
    requires forall z | z in m :: m[z].parent != Some(x)
    ensures Acyclic(m[x := f])
  {
    var m' := m[x := f];
    forall z | z in m' && m'[z].parent.Some? ensures !Under(m', z, m'[z].parent.value) {
      UnderAddLeaf(m, x, f, z, m'[z].parent.value);
      if z == x && Under(m, x, f.parent.value) { UnderIn(m, x, f.parent.value); }
    }
  }

  /** Giving `x` the parent `p`: an ancestor afterwards was one before, or is reached
      through the new edge. */
  lemma {:induction false} UpMoved(m: Files, x: Id, p: Id, y: Id, n: nat, r: Id)
    requires x in m && !Under(m, x, p)
    requires Up(m[x := m[x].(parent := Some(p))], y, n) == Some(r)
    ensures Under(m, r, y) || (Under(m, x, y) && Under(m, r, p))
    decreases n
  {
    var m' := m[x := m[x].(parent := Some(p))];
    UnderStep(m, r, y);
    UnderStep(m, x, y);
    if n > 0 {
      UpMoved(m, x, p, m'[y].parent.value, n - 1, r);
    }
  }

  lemma AcyclicMoved(m: Files, x: Id, p: Id)
    requires Acyclic(m) && x in m && !Under(m, x, p)
    ensures Acyclic(m[x := m[x].(parent := Some(p))])
  {
    var m' := m[x := m[x].(parent := Some(p))];
    forall z | z in m' && m'[z].parent.Some? ensures !Under(m', z, m'[z].parent.value) {
      var q := m'[z].parent.value;
      if Under(m', z, q) {
        var n: nat :| Up(m', q, n) == Some(z);
        UpMoved(m, x, p, q, n, z);
        UnderStep(m, x, z);
        if !Under(m, z, q) {
          UnderTransitive(m, x, z, p);
        }
      }
    }
  }

  /** The other half: linking `x` below its own subtree makes a cycle. */
  lemma CyclicMoved(m: Files, x: Id, p: Id)
    requires Acyclic(m) && x in m && Under(m, x, p)
    ensures !Acyclic(m[x := m[x].(parent := Some(p))])
  {
    var m' := m[x := m[x].(parent := Some(p))];
    var n: nat :| Up(m, p, n) == Some(x);
    UpToMoved(m, x, p, p, n);
    assert m'[x].parent == Some(p);
  }

  lemma {:induction false} UpToMoved(m: Files, x: Id, p: Id, y: Id, n: nat)
    requires x in m && Up(m, y, n) == Some(x)
    ensures Under(m[x := m[x].(parent := Some(p))], x, y)
    decreases n
  {
    var m' := m[x := m[x].(parent := Some(p))];
    UnderStep(m', x, y);
    if y != x { UpToMoved(m, x, p, m[y].parent.value, n - 1); }
  }
}
