/** Reading a directory tree back: GetDirManifest, walkDir and GetDirTotalSize
    (internal/domain/download.go). */
module Walks {
  import opened Types
  import opened Forest
  import opened Sums
  import opened Stores
  import opened Tree
  import opened Deletion
  import opened Sorting

  datatype Entry = Entry(path: string, size: nat, sha: Option<Sha>, id: Id)

  datatype Manifest = Manifest(dir: Id, name: string, entries: seq<Entry>, total: nat)

  /** The path shown for a row: its own if it has one, else built from where it hangs. */
  function ShownPath(f: File, prefix: string): string {
    if f.path != "" && f.path != "/" then f.path
    else if prefix != "" then prefix + "/" + f.name
    else f.name
  }

  /** The path shown for the row `n` levels below the start. */
  ghost function PathFrom(m: Files, x: Id, n: nat): string
    decreases n
  {
    if n == 0 || x !in m || m[x].parent.None? then ""
    else ShownPath(m[x], PathFrom(m, m[x].parent.value, n - 1))
  }

  /** A row without a path of its own is shown by its name below what its directory is shown as;
      one with a path, by that. */
  lemma ShownBelow(m: Files, x: Id, n: nat)
    requires n > 0 && x in m && m[x].parent.Some?
    ensures var above := PathFrom(m, m[x].parent.value, n - 1);
            PathFrom(m, x, n) == if m[x].path != "" && m[x].path != "/" then m[x].path
                                 else if above == "" then m[x].name
                                 else above + "/" + m[x].name
  {
  }

  ghost function Depth(m: Files, root: Id, x: Id): nat
    requires Under(m, root, x)
  {
    var n: nat :| Up(m, x, n) == Some(root);
    n
  }

  lemma DepthUnique(m: Files, root: Id, x: Id, n: nat)
    requires Acyclic(m) && Up(m, x, n) == Some(root)
    ensures Under(m, root, x) && Depth(m, root, x) == n
  {
    var k := Depth(m, root, x);
    if k != n {
      var i, j := if k < n then k else n, if k < n then n else k;
      UpAdd(m, x, i, root, j - i);
      LoopIsCycle(m, root, j - i);
    }
  }

  /** Renaming a row leaves alone what is shown for every other row that has a path of its own,
      also below it: a renamed directory's files keep the paths they had. */
  lemma RenamedShown(m: Files, root: Id, d: Id, name: string, path: string, e: Entry)
    requires Acyclic(m) && d in m && e.id in m && e.id != d && m[e.id].path != "" && m[e.id].path != "/"
    ensures Shows(m[d := m[d].(name := name, path := path)], root, e) <==> Shows(m, root, e)
  {
    var m' := m[d := m[d].(name := name, path := path)];
    AcyclicMono(m, m');
    RenamedEntry(m, m', root, e);
    RenamedEntry(m', m, root, e);
  }

  lemma RenamedEntry(m: Files, m': Files, root: Id, e: Entry)
    requires Acyclic(m') && m'.Keys == m.Keys && forall x | x in m :: m'[x].parent == m[x].parent
    requires e.id in m && m'[e.id] == m[e.id] && m[e.id].path != "" && m[e.id].path != "/"
    ensures Shows(m, root, e) ==> Shows(m', root, e)
  {
    if Shows(m, root, e) {
      var n := Depth(m, root, e.id);
      UpMono(m', m, e.id, n, root);
      DepthUnique(m', root, e.id, n);
    }
  }

  ghost function FilesBelow(m: Files, d: Id): set<Id> { FilesIn(m, Subtree(m, d)) }

  ghost function FilesIn(m: Files, ids: set<Id>): set<Id> {
    set x | x in ids && x in m && !m[x].isDir
  }

  ghost predicate Shows(m: Files, root: Id, e: Entry) {
    && Under(m, root, e.id) && e.id in m
    && e == Entry(PathFrom(m, e.id, Depth(m, root, e.id)), m[e.id].size, m[e.id].sha, e.id)
  }

  /** Each of `ids` is shown once, and nothing else. */
  ghost predicate Enumerates(m: Files, root: Id, ids: set<Id>, entries: seq<Entry>) {
    && (forall i | 0 <= i < |entries| :: entries[i].id in ids && Shows(m, root, entries[i]))
    && (forall i, j | 0 <= i < j < |entries| :: entries[i].id != entries[j].id)
    && (forall x | x in ids :: exists i :: 0 <= i < |entries| && entries[i].id == x)
  }

  lemma EnumeratesBoth(m: Files, root: Id, a: set<Id>, xs: seq<Entry>, b: set<Id>, ys: seq<Entry>)
    requires Enumerates(m, root, a, xs) && Enumerates(m, root, b, ys) && a !! b
    ensures Enumerates(m, root, a + b, xs + ys)
  {
    forall x | x in a + b ensures exists i :: 0 <= i < |xs + ys| && (xs + ys)[i].id == x {
      if x in a {
        var i :| 0 <= i < |xs| && xs[i].id == x;
        assert (xs + ys)[i].id == x;
      } else {
        var i :| 0 <= i < |ys| && ys[i].id == x;
        assert (xs + ys)[|xs| + i].id == x;
      }
    }
  }

  lemma EnumeratesPermuted(m: Files, root: Id, ids: set<Id>, xs: seq<Entry>, ys: seq<Entry>)
    requires Enumerates(m, root, ids, xs) && multiset(xs) == multiset(ys)
    ensures Enumerates(m, root, ids, ys)
  {
    SameMembers(xs, ys);
    assert Distinct(xs);
    DistinctPermuted(xs, ys);
    forall i, j | 0 <= i < j < |ys| ensures ys[i].id != ys[j].id {
      assert ys[i] in xs && ys[j] in xs;
    }
    forall i | 0 <= i < |ys| ensures ys[i].id in ids && Shows(m, root, ys[i]) { assert ys[i] in xs; }
    forall x | x in ids ensures exists i :: 0 <= i < |ys| && ys[i].id == x {
      var i :| 0 <= i < |xs| && xs[i].id == x;
      assert xs[i] in ys;
    }
  }

  ghost function SizesOf(m: Files, ids: set<Id>): map<Id, nat> {
    map x | x in ids && x in m :: m[x].size
  }

  lemma {:induction false} SizesSplit(m: Files, a: set<Id>, b: set<Id>)
    requires a !! b
    ensures Total(SizesOf(m, a + b)) == Total(SizesOf(m, a)) + Total(SizesOf(m, b))
    decreases b
  {
    if b == {} {
      assert a + b == a;
    } else {
      var x :| x in b;
      SizesSplit(m, a, b - {x});
      assert SizesOf(m, a + b) - {x} == SizesOf(m, a + (b - {x}));
      assert SizesOf(m, b) - {x} == SizesOf(m, b - {x});
      TotalDrop(SizesOf(m, a + b), x);
      TotalDrop(SizesOf(m, b), x);
    }
  }

  function SumOf(entries: seq<Entry>): nat {
    if entries == [] then 0 else SumOf(entries[..|entries| - 1]) + entries[|entries| - 1].size
  }

  lemma EnumeratesInit(m: Files, root: Id, ids: set<Id>, entries: seq<Entry>)
    requires Enumerates(m, root, ids, entries) && entries != []
    ensures Enumerates(m, root, ids - {entries[|entries| - 1].id}, entries[..|entries| - 1])
  {
  }

  lemma {:induction false} SumOfEnumeration(m: Files, root: Id, ids: set<Id>, entries: seq<Entry>)
    requires Enumerates(m, root, ids, entries)
    ensures SumOf(entries) == Total(SizesOf(m, ids))
    decreases |entries|
  {
    if entries == [] {
      assert SizesOf(m, ids) == map[];
    } else {
      var init, e := entries[..|entries| - 1], entries[|entries| - 1];
      EnumeratesInit(m, root, ids, entries);
      SumOfEnumeration(m, root, ids - {e.id}, init);
      TotalRemove(SizesOf(m, ids), e.id);
      assert SizesOf(m, ids) - {e.id} == SizesOf(m, ids - {e.id});
    }
  }

  /** The rows below the children of `d`, whether or not `d` is itself in the table. */
  ghost function Hanging(m: Files, d: Id): set<Id> {
    set x | x in m && exists c :: c in m && m[c].parent == Some(d) && x in Subtree(m, c)
  }

  /** Under a directory of the table, that is everything below it but itself. */
  lemma HangingBelow(m: Files, d: Id)
    requires Acyclic(m) && d in m && m[d].isDir
    ensures FilesIn(m, Hanging(m, d)) == FilesBelow(m, d)
  {
    forall x | x in m ensures x in Subtree(m, d) <==> x == d || x in Hanging(m, d) { SubtreeSplit(m, d, x); }
  }

  lemma HangingListed(m: Files, d: Id, kids: seq<Row>)
    requires ChildList(m, d, kids)
    ensures Hanging(m, d) == Below(m, kids, |kids|)
  {
  }

  lemma HangingSmaller(m: Files, d: Id, c: Id)
    requires Acyclic(m) && c in m && m[c].parent == Some(d)
    ensures |Hanging(m, c)| < |Hanging(m, d)|
  {
    UnderStep(m, c, c);
    forall x | x in Hanging(m, c) ensures x in Subtree(m, c) && x != c {
      var b :| b in m && m[b].parent == Some(c) && x in Subtree(m, b);
      ChildSubtreeSmaller(m, c, b);
    }
    assert c in Hanging(m, d) && c !in Hanging(m, c);
    SmallerSet(Hanging(m, c), Hanging(m, d));
  }

  /** The files below a directory, as the walk over its children reaches them. */
  lemma FilesStep(m: Files, d: Id, kids: seq<Row>, k: nat)
    requires Acyclic(m) && d in m && k < |kids| && ChildList(m, d, kids)
    ensures FilesIn(m, Below(m, kids, k + 1)) == FilesIn(m, Below(m, kids, k)) + FilesBelow(m, kids[k].id)
    ensures FilesIn(m, Below(m, kids, k)) !! FilesBelow(m, kids[k].id)
    ensures |Subtree(m, kids[k].id)| < |Subtree(m, d)|
  {
    NextChildIntact(m, d, kids, k);
    assert Subtree(m - Below(m, kids, k), kids[k].id) !! Below(m, kids, k);
  }

  lemma FilesEnd(m: Files, d: Id, kids: seq<Row>)
    requires Acyclic(m) && d in m && m[d].isDir && ChildList(m, d, kids)
    ensures FilesIn(m, Below(m, kids, |kids|)) == FilesBelow(m, d)
  {
    AllChildrenCovered(m, d, kids);
  }

  lemma SizesStart(m: Files, kids: seq<Row>)
    ensures Total(SizesOf(m, FilesIn(m, Below(m, kids, 0)))) == 0
  {
  }

  lemma SizesStep(m: Files, d: Id, kids: seq<Row>, k: nat)
    requires Acyclic(m) && k < |kids| && ChildList(m, d, kids)
    ensures Total(SizesOf(m, FilesIn(m, Below(m, kids, k + 1))))
         == Total(SizesOf(m, FilesIn(m, Below(m, kids, k)))) + Total(SizesOf(m, FilesBelow(m, kids[k].id)))
  {
    var done, next := FilesIn(m, Below(m, kids, k)), FilesBelow(m, kids[k].id);
    forall x | x in done ensures x !in next {
      var i :| 0 <= i < k && x in Subtree(m, kids[i].id);
      SiblingsDisjoint(m, d, kids[i].id, kids[k].id, x);
    }
    SizesSplit(m, done, next);
    assert FilesIn(m, Below(m, kids, k + 1)) == done + next;
  }

  lemma FileSize(m: Files, part: Files, x: Id)
    requires WellFormed(m) && part.Keys <= m.Keys && (forall y | y in part :: part[y] == m[y])
    requires x in part && !m[x].isDir
    ensures Total(SizesOf(part, FilesBelow(part, x))) == m[x].size
  {
    FileSubtree(m, part, x);
    assert SizesOf(part, FilesBelow(part, x)) == map[][x := m[x].size];
    TotalUpdate(map[], x, m[x].size);
  }

  predicate PathLeq(a: Entry, b: Entry) { Leq(a.path, b.path) }

  lemma PathOrder()
    ensures TotalOrder(PathLeq)
  {
    LeqOrder();
  }

  /** What GetDirManifest answers when nothing fails, or why it refuses. */
  ghost predicate IsManifest(m: Files, d: Id, w: Manifest) {
    && d in m && w.dir == d && w.name == m[d].name
    && Enumerates(m, d, FilesBelow(m, d), w.entries)
    && Sorted(w.entries, PathLeq)
    && w.total == Total(SizesOf(m, FilesBelow(m, d)))
  }

  class Walker {
    const store: Store
    var entries: seq<Entry>

    constructor (store: Store)
      ensures this.store == store && entries == []
    {
      this.store := store;
      entries := [];
    }

    /** download.go:214-244: appends the files below `d` to the shared list. */
    method WalkDir(d: Id, prefix: string, ghost root: Id, ghost n: nat)
      returns (err: Option<Error>, ghost added: seq<Entry>)
      requires WellFormed(store.files) && d in Live(store.files) && store.files[d].isDir
      requires Up(Live(store.files), d, n) == Some(root) && prefix == PathFrom(Live(store.files), d, n)
      modifies this`entries, store`steps
      ensures old(store.steps) < store.steps
      ensures err.None? <==> store.Quiet(old(store.steps), store.steps)
      ensures entries == old(entries) + added
      ensures err.None? ==> Enumerates(Live(store.files), root, FilesBelow(Live(store.files), d), added)
      decreases |Subtree(Live(store.files), d)|, 2
    {
      added := [];
      var kids;
      err, kids := store.ListChildren(d);
      if err.None? {
        ListedChildren(store, d, kids);
        err, added := WalkChildren(d, kids, prefix, root, n);
      }
    }

    /** The loop over the children. */
    method WalkChildren(ghost d: Id, kids: seq<Row>, prefix: string, ghost root: Id, ghost n: nat)
      returns (err: Option<Error>, ghost added: seq<Entry>)
      requires WellFormed(store.files) && d in Live(store.files) && store.files[d].isDir
      requires ChildList(Live(store.files), d, kids)
      requires Up(Live(store.files), d, n) == Some(root) && prefix == PathFrom(Live(store.files), d, n)
      modifies this`entries, store`steps
      ensures old(store.steps) <= store.steps
      ensures err.None? <==> store.Quiet(old(store.steps), store.steps)
      ensures entries == old(entries) + added
      ensures err.None? ==> Enumerates(Live(store.files), root, FilesBelow(Live(store.files), d), added)
      decreases |Subtree(Live(store.files), d)|, 1
    {
      ghost var m := Live(store.files);
      WellFormedCut(store.files, m);
      err, added := None, [];
      assert FilesIn(m, Below(m, kids, 0)) == {};
      var k := 0;
      while k < |kids| && err.None?
        invariant k <= |kids| && old(store.steps) <= store.steps
        invariant err.None? <==> store.Quiet(old(store.steps), store.steps)
        invariant entries == old(entries) + added
        invariant err.None? ==> Enumerates(m, root, FilesIn(m, Below(m, kids, k)), added)
      {
        ghost var step1 := store.steps;
        err, added := WalkNth(d, kids, k, prefix, root, n, old(entries), added);
        store.QuietSplit(old(store.steps), step1, store.steps);
        k := k + 1;
      }
      FilesEnd(m, d, kids);
    }

    /** One turn of that loop. */
    method WalkNth(ghost d: Id, kids: seq<Row>, k: nat, prefix: string, ghost root: Id, ghost n: nat,
                   ghost first: seq<Entry>, ghost before: seq<Entry>)
      returns (err: Option<Error>, ghost added: seq<Entry>)
      requires WellFormed(store.files) && d in Live(store.files) && store.files[d].isDir
      requires ChildList(Live(store.files), d, kids) && k < |kids|
      requires Up(Live(store.files), d, n) == Some(root) && prefix == PathFrom(Live(store.files), d, n)
      requires entries == first + before
      requires Enumerates(Live(store.files), root, FilesIn(Live(store.files), Below(Live(store.files), kids, k)),
                          before)
      modifies this`entries, store`steps
      ensures old(store.steps) <= store.steps
      ensures err.None? <==> store.Quiet(old(store.steps), store.steps)
      ensures entries == first + added
      ensures err.None? ==>
                Enumerates(Live(store.files), root, FilesIn(Live(store.files), Below(Live(store.files), kids, k + 1)),
                           added)
      decreases |Subtree(Live(store.files), d)|, 0
    {
      ghost var m, more := Live(store.files), [];
      WellFormedCut(store.files, m);
      FilesStep(m, d, kids, k);
      err, more := Visit(kids[k], prefix, d, root, n);
      added := before + more;
      assert (first + before) + more == first + (before + more);
      if err.None? {
        EnumeratesBoth(m, root, FilesIn(m, Below(m, kids, k)), before, FilesBelow(m, kids[k].id), more);
      }
    }

    /** One child. */
    method Visit(child: Row, prefix: string, ghost d: Id, ghost root: Id, ghost n: nat)
      returns (err: Option<Error>, ghost added: seq<Entry>)
      requires WellFormed(store.files) && d in Live(store.files)
      requires child.id in Live(store.files) && store.files[child.id] == child.file && child.file.parent == Some(d)
      requires Up(Live(store.files), d, n) == Some(root) && prefix == PathFrom(Live(store.files), d, n)
      modifies this`entries, store`steps
      ensures old(store.steps) <= store.steps
      ensures err.None? <==> store.Quiet(old(store.steps), store.steps)
      ensures entries == old(entries) + added
      ensures err.None? ==> Enumerates(Live(store.files), root, FilesBelow(Live(store.files), child.id), added)
      decreases |Subtree(Live(store.files), child.id)|, 3
    {
      ghost var m := Live(store.files);
      WellFormedCut(store.files, m);
      var relPath := ShownPath(child.file, prefix);
      assert relPath == PathFrom(m, child.id, n + 1);
      assert Up(m, child.id, n + 1) == Some(root);
      if child.file.isDir {
        err, added := WalkDir(child.id, relPath, root, n + 1);
      } else {
        FileSubtree(store.files, m, child.id);
        DepthUnique(m, root, child.id, n + 1);
        var e := Entry(relPath, child.file.size, child.file.sha, child.id);
        entries := entries + [e];
        err, added := None, [e];
        assert added[0].id == child.id;
      }
    }
  }

  class Downloads {
    const store: Store

    constructor (store: Store)
      ensures this.store == store
    {
      this.store := store;
    }

    /** download.go:122-163. */
    method GetDirManifest(d: Id, ns: string) returns (err: Option<Error>, w: Option<Manifest>)
      requires WellFormed(store.files)
      modifies store`steps
      ensures err.None? <==> w.Some?
      ensures err.None? ==> d in Live(store.files) && store.files[d].isDir && store.files[d].ns == ns
      ensures err.None? ==> IsManifest(Live(store.files), d, w.value)
      ensures store.Quiet(old(store.steps), store.steps) ==>
                err == if d !in Live(store.files) then Some(NotFound)
                       else if !store.files[d].isDir then Some(InvalidArgument)
                       else if store.files[d].ns != ns then Some(Forbidden)
                       else None
    {
      w := None;
      ghost var m := Live(store.files);
      var dir;
      err, dir := store.GetFile(d);
      if err.Some? { return; }
      if dir.None? { return Some(NotFound), None; }
      if !dir.value.file.isDir { return Some(InvalidArgument), None; }
      if dir.value.file.ns != ns { return Some(Forbidden), None; }
      var walker := new Walker(store);
      assert Up(m, d, 0) == Some(d);
      ghost var added;
      err, added := walker.WalkDir(d, "", d, 0);
      if err.Some? { return; }
      assert walker.entries == added;
      PathOrder();
      var entries := Sort(walker.entries, PathLeq);
      EnumeratesPermuted(m, d, FilesBelow(m, d), added, entries);
      SumOfEnumeration(m, d, FilesBelow(m, d), entries);
      var total := TotalSize(entries);
      w := Some(Manifest(d, dir.value.file.name, entries, total));
    }

    method TotalSize(entries: seq<Entry>) returns (total: nat)
      ensures total == SumOf(entries)
    {
      total := 0;
      for i := 0 to |entries|
        invariant total == SumOf(entries[..i])
      {
        assert entries[..i + 1][..i] == entries[..i];
        total := total + entries[i].size;
      }
      assert entries[..|entries|] == entries;
    }

    /** download.go:340-359: the same total, summed on the way up. The identifier is not looked
        up: whatever it is, what hangs below its active children is summed. */
    method GetDirTotalSize(d: Id) returns (err: Option<Error>, total: nat)
      requires WellFormed(store.files)
      modifies store`steps
      ensures old(store.steps) < store.steps
      ensures err.None? <==> store.Quiet(old(store.steps), store.steps)
      ensures err.None? ==> total == SizeHanging(Live(store.files), d)
      decreases |Hanging(Live(store.files), d)|, 2
    {
      var kids;
      total := 0;
      err, kids := store.ListChildren(d);
      if err.None? {
        ListedChildren(store, d, kids);
        err, total := SumChildren(d, kids);
      }
    }

    /** The loop over the children. */
    method SumChildren(ghost d: Id, kids: seq<Row>) returns (err: Option<Error>, total: nat)
      requires WellFormed(store.files) && ChildList(Live(store.files), d, kids)
      modifies store`steps
      ensures old(store.steps) <= store.steps
      ensures err.None? <==> store.Quiet(old(store.steps), store.steps)
      ensures err.None? ==> total == SizeHanging(Live(store.files), d)
      decreases |Hanging(Live(store.files), d)|, 1
    {
      ghost var m := Live(store.files);
      SizesStart(m, kids);
      err, total := None, 0;
      var k := 0;
      while k < |kids| && err.None?
        invariant k <= |kids| && old(store.steps) <= store.steps
        invariant err.None? <==> store.Quiet(old(store.steps), store.steps)
        invariant err.None? ==> total == Total(SizesOf(m, FilesIn(m, Below(m, kids, k))))
      {
        ghost var step1 := store.steps;
        err, total := AddChild(d, kids, k, total);
        store.QuietSplit(old(store.steps), step1, store.steps);
        k := k + 1;
      }
      HangingListed(m, d, kids);
    }

    /** One child's share of the sum. */
    method AddChild(ghost d: Id, kids: seq<Row>, k: nat, before: nat) returns (err: Option<Error>, total: nat)
      requires WellFormed(store.files) && ChildList(Live(store.files), d, kids) && k < |kids|
      requires before == Total(SizesOf(Live(store.files),
                                       FilesIn(Live(store.files), Below(Live(store.files), kids, k))))
      modifies store`steps
      ensures old(store.steps) <= store.steps
      ensures err.None? <==> store.Quiet(old(store.steps), store.steps)
      ensures err.None? ==>
                total == Total(SizesOf(Live(store.files),
                                       FilesIn(Live(store.files), Below(Live(store.files), kids, k + 1))))
      decreases |Hanging(Live(store.files), d)|, 0
    {
      ghost var m := Live(store.files);
      WellFormedCut(store.files, m);
      SizesStep(m, d, kids, k);
      var size := kids[k].file.size;
      err := None;
      if kids[k].file.isDir {
        HangingSmaller(m, d, kids[k].id);
        HangingBelow(m, kids[k].id);
        err, size := GetDirTotalSize(kids[k].id);
      } else {
        FileSize(store.files, m, kids[k].id);
      }
      total := before + size;
    }
  }

  /** The sizes of the files below the children of `d`. */
  ghost function SizeHanging(m: Files, d: Id): nat { Total(SizesOf(m, FilesIn(m, Hanging(m, d)))) }
}
