/** What every table of files the services reach looks like, and why cutting rows out of
    such a table leaves another one. */
module Tree {
  import opened Types
  import opened Forest

  /** `p` is the parent of `x` and both rows are there. */
  ghost predicate Edge(m: Files, x: Id, p: Id) {
    x in m && p in m && m[x].parent == Some(p)
  }

  /** Parents are directories of the same namespace, directories carry no content, and
      no row is its own ancestor. */
  ghost predicate WellFormed(m: Files) {
    && Acyclic(m)
    && (forall x | x in m && m[x].isDir :: m[x].sha.None?)
    && (forall x, p {:trigger Edge(m, x, p)} | Edge(m, x, p) :: m[p].isDir && m[p].ns == m[x].ns)
  }

  /** No active row sits under a trashed one. */
  ghost predicate TrashClosed(m: Files) {
    forall x, p {:trigger Edge(m, x, p)} | Edge(m, x, p) && Active(m[x]) :: Active(m[p])
  }

  /** A trashed child was trashed no later than its trashed parent. */
  ghost predicate TrashOrdered(m: Files) {
    forall x, p {:trigger Edge(m, x, p)} | Edge(m, x, p) && !Active(m[x]) && !Active(m[p]) ::
      m[x].deletedAt.value <= m[p].deletedAt.value
  }

  /** Identifiers still to be issued occur nowhere. */
  ghost predicate IdsBelow(m: Files, next: Id) {
    forall x | x in m :: x < next && (m[x].parent.Some? ==> m[x].parent.value < next)
  }

  /** Everything the table keeps between operations. */
  ghost predicate Sound(m: Files, next: Id) {
    WellFormed(m) && TrashClosed(m) && TrashOrdered(m) && IdsBelow(m, next)
  }

  /** A table with some of the rows of another, or the same rows with other fields
      changed, has no new edges. */
  lemma EdgesKept(m: Files, m': Files)
    requires m'.Keys <= m.Keys && forall x | x in m' :: m'[x].parent == m[x].parent
    ensures forall x, p {:trigger Edge(m', x, p)} :: Edge(m', x, p) ==> Edge(m, x, p)
  {
  }

  lemma WellFormedCut(m: Files, m': Files)
    requires WellFormed(m) && m'.Keys <= m.Keys && forall x | x in m' :: m'[x] == m[x]
    ensures WellFormed(m')
  {
    EdgesKept(m, m');
    AcyclicMono(m, m');
  }

  lemma SoundCut(m: Files, m': Files, next: Id)
    requires Sound(m, next) && m'.Keys <= m.Keys && forall x | x in m' :: m'[x] == m[x]
    ensures Sound(m', next)
  {
    EdgesKept(m, m');
    WellFormedCut(m, m');
  }

  lemma LiveCut(m: Files, gone: set<Id>)
    ensures Live(m - gone) == Live(m) - gone
  {
  }

  lemma CutTwice(m: Files, a: set<Id>, b: set<Id>)
    ensures m - a - b == m - (a + b)
  {
  }

  /** The part of a directory's subtree a walk over its children list has removed. */
  ghost function Below(m: Files, kids: seq<Row>, k: nat): set<Id>
    requires k <= |kids|
  {
    set x | x in m && exists i :: 0 <= i < k && x in Subtree(m, kids[i].id)
  }

  /** `kids` are the children of `d` in `m`, each once. */
  ghost predicate ChildList(m: Files, d: Id, kids: seq<Row>) {
    && (forall i | 0 <= i < |kids| ::
          kids[i].id in m && m[kids[i].id] == kids[i].file && kids[i].file.parent == Some(d))
    && (forall i, j | 0 <= i < j < |kids| :: kids[i].id != kids[j].id)
    && (forall x | x in m && m[x].parent == Some(d) :: exists i :: 0 <= i < |kids| && kids[i].id == x)
  }

  /** After the first `k` children's subtrees are gone, the next child is still there with
      its whole subtree, and that subtree is smaller than the directory's. */
  lemma NextChildIntact(m: Files, d: Id, kids: seq<Row>, k: nat)
    requires Acyclic(m) && d in m && k < |kids| && ChildList(m, d, kids)
    ensures kids[k].id in m - Below(m, kids, k) && d in m - Below(m, kids, k)
    ensures Subtree(m - Below(m, kids, k), kids[k].id) == Subtree(m, kids[k].id)
    ensures |Subtree(m, kids[k].id)| < |Subtree(m, d)|
    ensures Below(m, kids, k + 1) == Below(m, kids, k) + Subtree(m, kids[k].id)
  {
    var c, gone := kids[k].id, Below(m, kids, k);
    forall x | x in gone ensures x !in Subtree(m, c) {
      var i :| 0 <= i < k && x in Subtree(m, kids[i].id);
      SiblingsDisjoint(m, d, kids[i].id, c, x);
    }
    UnderStep(m, c, c);
    SubtreeKept(m, gone, c);
    ChildSubtreeSmaller(m, d, c);
    assert Subtree(m, d) == Subtree(m, c) + (Subtree(m, d) - Subtree(m, c));
    forall i | 0 <= i < k ensures d !in Subtree(m, kids[i].id) {
      UnderStep(m, kids[i].id, kids[i].id);
    }
  }

  /** When every child's subtree is gone, only the directory itself is left of its own. */
  lemma AllChildrenCovered(m: Files, d: Id, kids: seq<Row>)
    requires Acyclic(m) && d in m && ChildList(m, d, kids)
    ensures Subtree(m, d) == Below(m, kids, |kids|) + {d}
  {
    forall x | x in m ensures x in Subtree(m, d) <==> x in Below(m, kids, |kids|) + {d} {
      SubtreeSplit(m, d, x);
      if c :| c in m && m[c].parent == Some(d) && x in Subtree(m, c) {
        var i :| 0 <= i < |kids| && kids[i].id == c;
      }
    }
  }

  /** A file has no children, whichever rows of the table one looks at. */
  lemma FileSubtree(m: Files, part: Files, x: Id)
    requires WellFormed(m) && part.Keys <= m.Keys && (forall y | y in part :: part[y] == m[y])
    requires x in part && !m[x].isDir
    ensures Subtree(part, x) == {x}
  {
    forall y ensures y in Subtree(part, x) <==> y == x {
      SubtreeSplit(part, x, y);
      if c :| c in part && part[c].parent == Some(x) && y in Subtree(part, c) {
        assert Edge(m, c, x);
      }
    }
  }

  /** One step of a walk that removes the children of `d` one after the other: the next
      child is untouched, removing its subtree is removing its part, and the walk over it
      is smaller. */
  lemma WalkStep(m: Files, d: Id, kids: seq<Row>, k: nat)
    requires WellFormed(m) && d in Live(m) && k < |kids| && ChildList(Live(m), d, kids)
    ensures var now, c := m - Below(Live(m), kids, k), kids[k].id;
            && c in now && now[c] == kids[k].file && WellFormed(now)
            && |Subtree(Live(now), c)| < |Subtree(Live(m), d)|
            && now - Subtree(Live(now), c) == m - Below(Live(m), kids, k + 1)
  {
    var gone := Below(Live(m), kids, k);
    LiveCut(m, gone);
    WellFormedCut(m, Live(m));
    WellFormedCut(m, m - gone);
    NextChildIntact(Live(m), d, kids, k);
    CutTwice(m, gone, Subtree(Live(m), kids[k].id));
  }

  /** The end of that walk. */
  lemma WalkEnd(m: Files, d: Id, kids: seq<Row>)
    requires WellFormed(m) && d in Live(m) && ChildList(Live(m), d, kids)
    ensures var now := m - Below(Live(m), kids, |kids|);
            d in now && now[d] == m[d] && now - {d} == m - Subtree(Live(m), d)
  {
    WellFormedCut(m, Live(m));
    AllChildrenCovered(Live(m), d, kids);
    CutTwice(m, Below(Live(m), kids, |kids|), {d});
    forall i | 0 <= i < |kids| ensures d !in Subtree(Live(m), kids[i].id) {
      UnderStep(Live(m), kids[i].id, kids[i].id);
    }
  }

  /** Inserting an active row under an active directory. */
  lemma AddSound(m: Files, next: Id, f: File)
    requires Sound(m, next) && Active(f) && (f.isDir ==> f.sha.None?)
    requires f.parent.Some? ==> f.parent.value in Live(m) && m[f.parent.value].isDir && m[f.parent.value].ns == f.ns
    ensures next !in m && Sound(m[next := f], next + 1)
  {
    var m' := m[next := f];
    AcyclicAddLeaf(m, next, f);
    forall x: Id, p: Id {:trigger Edge(m', x, p)} | Edge(m', x, p)
      ensures (x == next && f.parent == Some(p)) || Edge(m, x, p)
    {
      assert p != next;
    }
  }
}
