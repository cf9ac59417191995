/** The recycle bin on tables: what trashing and restoring a set of rows does, and which
    sets keep the table sound. */
module TrashTables {
  import opened Types
  import opened Forest
  import opened Refs
  import opened Stores
  import opened Tree

  /** The rows of `ids` in the bin since `at`. */
  ghost function Marked(m: Files, ids: set<Id>, at: Time): Files {
    map x | x in m :: if x in ids then m[x].(deletedAt := Some(Seconds(at))) else m[x]
  }

  /** The rows of `ids` taken out of the bin. */
  ghost function Unmarked(m: Files, ids: set<Id>): Files {
    map x | x in m :: if x in ids then m[x].(deletedAt := None) else m[x]
  }

  /** No row was trashed after `at`: the clock has not run backwards. */
  ghost predicate NotLater(m: Files, at: Time) {
    forall x | x in m && !Active(m[x]) :: m[x].deletedAt.value <= Seconds(at)
  }

  /** With a row, its active children. */
  ghost predicate DownClosed(m: Files, ids: set<Id>) {
    forall y | y in Live(m) && m[y].parent.Some? && m[y].parent.value in ids :: y in ids
  }

  ghost predicate ParentAmong(m: Files, ids: set<Id>, x: Id) {
    x in m && m[x].parent.Some? && m[x].parent.value in ids
  }

  /** With every row but the top, its parent. */
  ghost predicate UpClosed(m: Files, top: Id, ids: set<Id>) {
    forall x {:trigger ParentAmong(m, ids, x)} | x in ids && x != top :: ParentAmong(m, ids, x)
  }

  /** The parent of `x` is missing or active. */
  predicate ParentOk(m: Files, x: Id) {
    x in m && (m[x].parent.Some? && m[x].parent.value in m ==> Active(m[m[x].parent.value]))
  }

  lemma SubtreeDownClosed(m: Files, d: Id)
    ensures DownClosed(m, Subtree(Live(m), d))
  {
    forall y | y in Live(m) && m[y].parent.Some? && m[y].parent.value in Subtree(Live(m), d)
      ensures y in Subtree(Live(m), d)
    {
      UnderStep(Live(m), d, y);
    }
  }

  /** Trashing keeps the table sound if it takes the active children along. */
  lemma MarkedSound(m: Files, next: Id, ids: set<Id>, at: Time)
    requires Sound(m, next) && ids <= Live(m).Keys && DownClosed(m, ids) && NotLater(m, at)
    ensures Sound(Marked(m, ids, at), next) && NotLater(Marked(m, ids, at), at)
  {
    AcyclicMono(m, Marked(m, ids, at));
    EdgesKept(m, Marked(m, ids, at));
  }

  /** Restoring keeps it sound exactly when the topmost row lands under no trashed one. */
  lemma UnmarkedSound(m: Files, next: Id, top: Id, ids: set<Id>)
    requires Sound(m, next) && ids <= m.Keys && UpClosed(m, top, ids) && top in ids
    ensures Sound(Unmarked(m, ids), next) <==> ParentOk(m, top)
  {
    var m' := Unmarked(m, ids);
    AcyclicMono(m, m');
    EdgesKept(m, m');
    assert forall x | x in ids && x != top :: ParentAmong(m, ids, x);
    if !ParentOk(m, top) {
      var p := m[top].parent.value;
      UnderStep(m, top, top);
      assert p !in ids by {
        if p in ids { ChainInside(m, top, ids, p); UnderStep(m, top, p); }
      }
      assert Edge(m', top, p) && Active(m'[top]) && !Active(m'[p]);
    }
  }

  /** A set closed upwards to `top` holds it, or nothing, and is a part of its subtree. */
  lemma ChainInside(m: Files, top: Id, ids: set<Id>, x: Id)
    requires Acyclic(m) && ids <= m.Keys && UpClosed(m, top, ids) && x in ids
    ensures top in ids && Under(m, top, x)
    decreases |m.Keys - Subtree(m, x)|
  {
    UnderStep(m, top, x);
    if x != top {
      assert ParentAmong(m, ids, x);
      var p := m[x].parent.value;
      ChildSubtreeSmaller(m, p, x);
      assert m.Keys - Subtree(m, p) < m.Keys - Subtree(m, x);
      SmallerSet(m.Keys - Subtree(m, p), m.Keys - Subtree(m, x));
      ChainInside(m, top, ids, p);
    }
  }

  lemma LiveMarked(m: Files, ids: set<Id>, at: Time)
    ensures Live(Marked(m, ids, at)) == Live(m) - ids
  {
  }

  lemma MarkedTwice(m: Files, a: set<Id>, b: set<Id>, at: Time)
    ensures Marked(Marked(m, a, at), b, at) == Marked(m, a + b, at)
  {
  }

  lemma CountMarked(m: Files, ids: set<Id>, at: Time, s: Sha)
    ensures Count(Marked(m, ids, at), s) == Count(m, s) && Count(Unmarked(m, ids), s) == Count(m, s)
  {
    CountSame(m, Marked(m, ids, at), s);
    CountSame(m, Unmarked(m, ids), s);
  }

  /** A set closed under children contains the subtree of each of its rows. */
  lemma {:induction false} ClosedContains(m: Files, r: Id, ids: set<Id>, x: Id, n: nat)
    requires r in ids && Up(m, x, n) == Some(r)
    requires forall y | y in m && m[y].parent.Some? && m[y].parent.value in ids :: y in ids
    ensures x in ids
    decreases n
  {
    if n > 0 { ClosedContains(m, r, ids, m[x].parent.value, n - 1); }
  }

  lemma ClosedContainsSubtree(m: Files, r: Id, ids: set<Id>)
    requires r in ids
    requires forall y | y in m && m[y].parent.Some? && m[y].parent.value in ids :: y in ids
    ensures Subtree(m, r) <= ids
  {
    forall x | x in Subtree(m, r) ensures x in ids {
      var n: nat :| Up(m, x, n) == Some(r);
      ClosedContains(m, r, ids, x, n);
    }
  }

  /** In a trash-closed table the rows reached from a trashed one through trashed rows (the
      bin's own search) are the rows a walk over active children reaches once they have
      been restored (the deletion's walk). */
  lemma SearchIsWalk(m: Files, ns: string, id: Id)
    requires TrashClosed(m) && id in Trashed(m, ns)
    ensures var t := Subtree(Trashed(m, ns), id);
            Subtree(Live(Unmarked(m, t)), id) == t && t <= m.Keys && id in t
  {
    var bin := Trashed(m, ns);
    var t := Subtree(bin, id);
    var live := Live(Unmarked(m, t));
    UnderStep(bin, id, id);
    ClosedContainsSubtree(live, id, t) by {
      forall y | y in live && live[y].parent.Some? && live[y].parent.value in t ensures y in t {
        UnderStep(bin, id, y);
        assert Edge(m, y, live[y].parent.value);
      }
    }
    forall x | x in t ensures x in Subtree(live, id) {
      var n: nat :| Up(bin, x, n) == Some(id);
      ChainRestored(m, ns, id, x, n);
    }
  }

  lemma {:induction false} ChainRestored(m: Files, ns: string, id: Id, x: Id, n: nat)
    requires Up(Trashed(m, ns), x, n) == Some(id)
    ensures Under(Live(Unmarked(m, Subtree(Trashed(m, ns), id))), id, x)
    decreases n
  {
    var t := Subtree(Trashed(m, ns), id);
    var live := Live(Unmarked(m, t));
    assert Under(Trashed(m, ns), id, x);
    UnderStep(live, id, x);
    if n > 0 { ChainRestored(m, ns, id, m[x].parent.value, n - 1); }
  }

  /** After trashing `id`, the bin's search from it finds its whole subtree: the rows just
      trashed and those that were in the bin already. */
  lemma TrashedSubtree(m: Files, next: Id, id: Id, at: Time)
    requires Sound(m, next) && id in Live(m)
    ensures Subtree(Trashed(Marked(m, Subtree(Live(m), id), at), m[id].ns), id) == Subtree(m, id)
  {
    var s := Subtree(Live(m), id);
    var m' := Marked(m, s, at);
    var bin := Trashed(m', m[id].ns);
    forall x | x in Subtree(bin, id) ensures x in Subtree(m, id) {
      UnderMono(m, bin, id, x);
    }
    forall x | x in Subtree(m, id) ensures x in Subtree(bin, id) {
      var n: nat :| Up(m, x, n) == Some(id);
      ChainTrashed(m, next, id, at, x, n);
    }
  }

  lemma {:induction false} ChainTrashed(m: Files, next: Id, id: Id, at: Time, x: Id, n: nat)
    requires Sound(m, next) && id in Live(m) && Up(m, x, n) == Some(id)
    ensures Under(Trashed(Marked(m, Subtree(Live(m), id), at), m[id].ns), id, x)
    ensures x in m && (Active(m[x]) ==> x in Subtree(Live(m), id)) && m[x].ns == m[id].ns
    decreases n
  {
    var bin := Trashed(Marked(m, Subtree(Live(m), id), at), m[id].ns);
    UnderStep(Live(m), id, x);
    if n > 0 {
      ChainTrashed(m, next, id, at, m[x].parent.value, n - 1);
      assert Edge(m, x, m[x].parent.value);
    }
    UnderStep(bin, id, x);
  }

  /** Trashing a node and restoring it reactivates its whole subtree, and so is the identity
      exactly when nothing below it was in the bin before. */
  lemma TrashThenRestore(m: Files, next: Id, id: Id, at: Time)
    requires Sound(m, next) && id in Live(m)
    ensures var trashed := Marked(m, Subtree(Live(m), id), at);
            var restored := Unmarked(trashed, Subtree(Trashed(trashed, m[id].ns), id));
            && restored == Unmarked(m, Subtree(m, id))
            && (restored == m <==> forall x | x in Subtree(m, id) :: Active(m[x]))
  {
    TrashedSubtree(m, next, id, at);
    var s := Subtree(Live(m), id);
    var trashed := Marked(m, s, at);
    var restored := Unmarked(trashed, Subtree(m, id));
    forall x | x in s ensures x in Subtree(m, id) { UnderMono(m, Live(m), id, x); }
    assert restored == Unmarked(m, Subtree(m, id));
    if restored == m {
      forall x | x in Subtree(m, id) ensures Active(m[x]) { assert Active(restored[x]); }
    }
  }

  /** One step of a walk that trashes the children of `d` one after the other. */
  lemma TrashStep(m: Files, d: Id, kids: seq<Row>, k: nat, at: Time)
    requires WellFormed(m) && d in Live(m) && k < |kids| && ChildList(Live(m), d, kids)
    ensures var now, c := Marked(m, Below(Live(m), kids, k), at), kids[k].id;
            && c in now && now[c] == kids[k].file && Active(now[c]) && WellFormed(now)
            && |Subtree(Live(now), c)| < |Subtree(Live(m), d)|
            && Below(Live(m), kids, k) + Subtree(Live(now), c) == Below(Live(m), kids, k + 1)
            && Below(Live(m), kids, k + 1) <= Subtree(Live(m), d)
  {
    var gone := Below(Live(m), kids, k);
    LiveMarked(m, gone, at);
    WellFormedCut(m, Live(m));
    WellFormedMarked(m, gone, at);
    NextChildIntact(Live(m), d, kids, k);
    BelowInside(m, d, kids, k + 1);
  }

  lemma WellFormedMarked(m: Files, ids: set<Id>, at: Time)
    requires WellFormed(m)
    ensures WellFormed(Marked(m, ids, at))
  {
    AcyclicMono(m, Marked(m, ids, at));
    EdgesKept(m, Marked(m, ids, at));
  }

  lemma BelowInside(m: Files, d: Id, kids: seq<Row>, k: nat)
    requires d in Live(m) && k <= |kids| && ChildList(Live(m), d, kids)
    ensures Below(Live(m), kids, k) <= Subtree(Live(m), d) && DownClosed(m, Below(Live(m), kids, k))
  {
    forall x | x in Below(Live(m), kids, k) ensures x in Subtree(Live(m), d) {
      SubtreeSplit(Live(m), d, x);
    }
    forall y | y in Live(m) && m[y].parent.Some? && m[y].parent.value in Below(Live(m), kids, k)
      ensures y in Below(Live(m), kids, k)
    {
      var i :| 0 <= i < k && m[y].parent.value in Subtree(Live(m), kids[i].id);
      UnderStep(Live(m), kids[i].id, y);
    }
  }

  /** The end of that walk. */
  lemma TrashEnd(m: Files, d: Id, kids: seq<Row>, at: Time)
    requires WellFormed(m) && d in Live(m) && ChildList(Live(m), d, kids)
    ensures var now := Marked(m, Below(Live(m), kids, |kids|), at);
            d in now && now[d] == m[d]
            && now[d := now[d].(deletedAt := Some(Seconds(at)))] == Marked(m, Subtree(Live(m), d), at)
  {
    WellFormedCut(m, Live(m));
    AllChildrenCovered(Live(m), d, kids);
    forall i | 0 <= i < |kids| ensures d !in Subtree(Live(m), kids[i].id) {
      UnderStep(Live(m), kids[i].id, kids[i].id);
    }
  }
}
