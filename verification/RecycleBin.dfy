/** Trash, restore and purge (internal/domain/trash.go). */
module RecycleBins {
  import opened Types
  import opened Forest
  import opened Refs
  import opened Stores
  import opened Tree
  import opened TrashTables
  import opened Deletion

  /** Each row but the first comes after its parent. */
  ghost predicate ParentsFirst(rows: seq<Row>) {
    forall i | 0 < i < |rows| :: AfterParent(rows, i)
  }

  ghost predicate AfterParent(rows: seq<Row>, i: nat)
    requires i < |rows|
  {
    exists j :: 0 <= j < i && rows[i].file.parent == Some(rows[j].id)
  }

  ghost function IdsOf(rows: seq<Row>): set<Id> {
    set i | 0 <= i < |rows| :: rows[i].id
  }

  lemma IdsSnoc(rows: seq<Row>, r: Row)
    ensures IdsOf(rows + [r]) == IdsOf(rows) + {r.id}
  {
    var longer := rows + [r];
    assert longer[|rows|] == r;
    forall x | x in IdsOf(rows) ensures x in IdsOf(longer) {
      var i :| 0 <= i < |rows| && rows[i].id == x;
      assert longer[i].id == x;
    }
  }

  /** The search order of trashTreeByID: rows of `bin`, each once, parents first, starting
      at `id`, and only rows under it. */
  ghost predicate Searched(bin: Files, id: Id, order: seq<Row>) {
    && |order| > 0 && order[0].id == id
    && (forall i | 0 <= i < |order| :: order[i].id in Subtree(bin, id) && bin[order[i].id] == order[i].file)
    && (forall i, j | 0 <= i < j < |order| :: order[i].id != order[j].id)
    && ParentsFirst(order)
  }

  lemma SearchedSnoc(bin: Files, id: Id, order: seq<Row>, k: nat, r: Row)
    requires Searched(bin, id, order) && k < |order|
    requires r.id in bin && bin[r.id] == r.file && r.file.parent == Some(order[k].id)
    requires r.id !in IdsOf(order)
    ensures Searched(bin, id, order + [r])
  {
    UnderStep(bin, id, r.id);
    var longer := order + [r];
    forall i | 0 < i < |longer| ensures AfterParent(longer, i) {
      if i < |order| {
        assert AfterParent(order, i);
        var j :| 0 <= j < i && order[i].file.parent == Some(order[j].id);
        assert longer[i].file.parent == Some(longer[j].id);
      } else {
        assert longer[i].file.parent == Some(longer[k].id);
      }
    }
  }

  /** The rows of `items` by parent, as the children map holds them. */
  ghost predicate GroupedByParent(items: seq<Row>, children: map<Option<Id>, seq<Row>>, n: nat)
    requires n <= |items|
  {
    && (forall p, k | p in children && 0 <= k < |children[p]| ::
          children[p][k] in items && children[p][k].file.parent == p)
    && (forall i | 0 <= i < n :: items[i].file.parent in children && items[i] in children[items[i].file.parent])
  }

  /** The search of trash.go:101-127: the trashed rows under `id`, parents first. */
  method TrashTreeByID(items: seq<Row>, id: Id, ghost bin: Files) returns (root: Option<Row>, tree: seq<Row>)
    requires Lists(bin, items, bin.Keys)
    ensures root.None? <==> id !in bin
    ensures root.Some? ==> root == Some(Row(id, bin[id])) && Searched(bin, id, tree) && IdsOf(tree) == Subtree(bin, id)
  {
    var byID, children := IndexRows(items, bin);
    if id !in byID { return None, []; }
    root := Some(byID[id]);
    tree := Search(items, children, byID[id], bin);
  }

  /** The loop that fills `byID` and `children`. */
  method IndexRows(items: seq<Row>, ghost bin: Files) returns (byID: map<Id, Row>, children: map<Option<Id>, seq<Row>>)
    requires Lists(bin, items, bin.Keys)
    ensures byID.Keys == bin.Keys && forall x | x in bin :: byID[x] == Row(x, bin[x])
    ensures GroupedByParent(items, children, |items|)
  {
    byID, children := map[], map[];
    for i := 0 to |items|
      invariant byID.Keys == IdsOf(items[..i])
      invariant forall x | x in byID :: x in bin && byID[x] == Row(x, bin[x])
      invariant GroupedByParent(items, children, i)
    {
      var item := items[i];
      IdsSnoc(items[..i], item);
      assert items[..i + 1] == items[..i] + [item];
      byID := byID[item.id := item];
      var siblings := if item.file.parent in children then children[item.file.parent] else [];
      GroupSnoc(items, children, i, siblings);
      children := children[item.file.parent := siblings + [item]];
    }
    assert items[..|items|] == items;
    AllListed(bin, items);
  }

  lemma GroupSnoc(items: seq<Row>, children: map<Option<Id>, seq<Row>>, n: nat, siblings: seq<Row>)
    requires n < |items| && GroupedByParent(items, children, n)
    requires siblings == if items[n].file.parent in children then children[items[n].file.parent] else []
    ensures GroupedByParent(items, children[items[n].file.parent := siblings + [items[n]]], n + 1)
  {
  }

  lemma AllListed(bin: Files, items: seq<Row>)
    requires Lists(bin, items, bin.Keys)
    ensures IdsOf(items) == bin.Keys
  {
  }

  /** The head of the queue is a row not taken before, and taking it is progress. */
  lemma TakeHead(bin: Files, id: Id, taken: seq<Row>, queue: seq<Row>)
    requires Searched(bin, id, taken + queue) && queue != []
    ensures queue[0].id in bin && (taken + [queue[0]]) + queue[1..] == taken + queue
    ensures IdsOf(taken + [queue[0]]) == IdsOf(taken) + {queue[0].id}
    ensures bin.Keys - IdsOf(taken + [queue[0]]) < bin.Keys - IdsOf(taken)
  {
    var order := taken + queue;
    assert order[|taken|] == queue[0];
    assert forall i | 0 <= i < |taken| :: order[i] == taken[i];
    IdsSnoc(taken, queue[0]);
  }

  /** The children map holds every child of a row. */
  lemma ChildrenMapComplete(bin: Files, items: seq<Row>, children: map<Option<Id>, seq<Row>>, d: Id, seen: set<Id>)
    requires Lists(bin, items, bin.Keys) && GroupedByParent(items, children, |items|)
    requires forall r | r in (if Some(d) in children then children[Some(d)] else []) :: r.id in seen
    ensures ChildrenSeen(bin, {d}, seen)
  {
  }

  /** Every row of `bin` whose parent is in `done` is in `seen`. */
  ghost predicate ChildrenSeen(bin: Files, done: set<Id>, seen: set<Id>) {
    forall y | y in bin && bin[y].parent.Some? && bin[y].parent.value in done :: y in seen
  }

  /** The queue loop. */
  method Search(items: seq<Row>, children: map<Option<Id>, seq<Row>>, root: Row, ghost bin: Files)
    returns (result: seq<Row>)
    requires Lists(bin, items, bin.Keys) && GroupedByParent(items, children, |items|)
    requires root.id in bin && bin[root.id] == root.file
    ensures Searched(bin, root.id, result) && IdsOf(result) == Subtree(bin, root.id)
  {
    result := [];
    var queue := [root];
    var seen := {root.id};
    UnderStep(bin, root.id, root.id);
    while queue != []
      invariant Searched(bin, root.id, result + queue)
      invariant seen == IdsOf(result + queue)
      invariant ChildrenSeen(bin, IdsOf(result), seen)
      decreases bin.Keys - IdsOf(result)
    {
      var current := queue[0];
      TakeHead(bin, root.id, result, queue);
      queue, result := queue[1..], result + [current];
      var kids := if Some(current.id) in children then children[Some(current.id)] else [];
      queue, seen := EnqueueUnseen(kids, queue, seen, root.id, bin, result);
      ChildrenMapComplete(bin, items, children, current.id, seen);
    }
    assert result + queue == result;
    assert root.id in IdsOf(result) by { assert result[0].id == root.id; }
    ClosedContainsSubtree(bin, root.id, IdsOf(result));
  }

  /** The inner loop: the children of the row just taken, appended unless seen. */
  method EnqueueUnseen(kids: seq<Row>, queue0: seq<Row>, seen0: set<Id>, ghost id: Id, ghost bin: Files,
                       ghost taken: seq<Row>)
    returns (queue: seq<Row>, seen: set<Id>)
    requires taken != [] && Searched(bin, id, taken + queue0) && seen0 == IdsOf(taken + queue0)
    requires forall r | r in kids :: r.id in bin && bin[r.id] == r.file && r.file.parent == Some(taken[|taken| - 1].id)
    ensures Searched(bin, id, taken + queue) && seen == IdsOf(taken + queue)
    ensures seen0 <= seen && forall r | r in kids :: r.id in seen
  {
    queue, seen := queue0, seen0;
    for i := 0 to |kids|
      invariant Searched(bin, id, taken + queue) && seen == IdsOf(taken + queue)
      invariant seen0 <= seen && forall n | 0 <= n < i :: kids[n].id in seen
    {
      var child := kids[i];
      if child.id !in seen {
        SearchedSnoc(bin, id, taken + queue, |taken| - 1, child);
        IdsSnoc(taken + queue, child);
        assert taken + (queue + [child]) == (taken + queue) + [child];
        seen := seen + {child.id};
        queue := queue + [child];
      }
    }
  }

  /** A trashed row of the namespace. */
  ghost predicate InBin(m: Files, id: Id, ns: string) { id in m && m[id].deletedAt.Some? && m[id].ns == ns }

  /** Active rows are in the bin since the last whole second, and nothing else has changed. */
  ghost predicate TrashedAt(m: Files, m': Files, done: set<Id>, at: Time) {
    && m'.Keys == m.Keys && done <= m.Keys
    && (forall x | x in m && x !in done :: m'[x] == m[x])
    && forall x | x in done ::
         && m[x].deletedAt.None? && m'[x] == m[x].(deletedAt := m'[x].deletedAt) && m'[x].deletedAt.Some?
         && at - SECOND < m'[x].deletedAt.value <= at && m'[x].deletedAt.value % SECOND == 0
  }

  lemma MarkedAt(m: Files, done: set<Id>, at: Time)
    requires done <= Live(m).Keys
    ensures TrashedAt(m, Marked(m, done, at), done, at)
  {
    SecondOf(at);
  }

  lemma SecondOf(at: Time)
    ensures at - SECOND < Seconds(at) <= at && Seconds(at) % SECOND == 0
  {
  }

  /** Trashed rows are active, and nothing else has changed. */
  ghost predicate ActiveAgain(m: Files, m': Files, done: set<Id>) {
    && m'.Keys == m.Keys && done <= m.Keys
    && forall x | x in m :: m'[x] == if x in done then m[x].(deletedAt := None) else m[x]
  }

  class RecycleBin {
    const store: Store
    const deleter: Deleter

    constructor (store: Store)
      ensures this.store == store && deleter.store == store
    {
      this.store := store;
      deleter := new Deleter(store);
    }

    // ---------- trash ----------

    /** Children before parents, so that stopping anywhere leaves no active row under a
        trashed one. `done` are the rows trashed. */
    method TrashTree(row: Row, at: Time) returns (err: Option<Error>, ghost done: set<Id>)
      requires row.id in store.files && store.files[row.id] == row.file && Active(row.file)
      requires WellFormed(store.files)
      modifies store`files, store`steps
      ensures old(store.steps) <= store.steps
      ensures err.None? <==> store.Quiet(old(store.steps), store.steps)
      ensures done <= Subtree(Live(old(store.files)), row.id) && DownClosed(old(store.files), done)
      ensures store.files == Marked(old(store.files), done, at)
      ensures err.None? ==> done == Subtree(Live(old(store.files)), row.id)
      decreases |Subtree(Live(store.files), row.id)|, 1
    {
      ghost var f := store.files;
      done := {};
      if row.file.isDir {
        var kids;
        err, kids := store.ListChildren(row.id);
        if err.None? {
          ListedChildren(store, row.id, kids);
          ghost var step1 := store.steps;
          err, done := TrashChildren(row, kids, at);
          store.QuietSplit(old(store.steps), step1, store.steps);
        }
        if err.Some? { return; }
        TrashEnd(f, row.id, kids, at);
      } else {
        FileSubtree(f, Live(f), row.id);
      }
      ghost var step2 := store.steps;
      err := store.MoveFileToTrash(row.id, at);
      store.QuietSplit(old(store.steps), step2, store.steps);
      if err.None? {
        done := Subtree(Live(f), row.id);
        SubtreeDownClosed(f, row.id);
      }
    }

    /** The loop over the children list. */
    method TrashChildren(row: Row, kids: seq<Row>, at: Time) returns (err: Option<Error>, ghost done: set<Id>)
      requires row.id in Live(store.files) && WellFormed(store.files)
      requires ChildList(Live(store.files), row.id, kids)
      modifies store`files, store`steps
      ensures old(store.steps) <= store.steps
      ensures err.None? <==> store.Quiet(old(store.steps), store.steps)
      ensures done <= Subtree(Live(old(store.files)), row.id) && DownClosed(old(store.files), done)
      ensures store.files == Marked(old(store.files), done, at)
      ensures err.None? ==> done == Below(Live(old(store.files)), kids, |kids|)
      decreases |Subtree(Live(store.files), row.id)|, 0
    {
      ghost var f := store.files;
      done := {};
      err := None;
      for k := 0 to |kids|
        invariant err.None? && done == Below(Live(f), kids, k) && store.files == Marked(f, done, at)
        invariant old(store.steps) <= store.steps && store.Quiet(old(store.steps), store.steps)
      {
        TrashStep(f, row.id, kids, k, at);
        ghost var part, before := {}, store.steps;
        err, part := TrashTree(kids[k], at);
        store.QuietSplit(old(store.steps), before, store.steps);
        BelowInside(f, row.id, kids, k);
        LiveMarked(f, done, at);
        MarkedTwice(f, done, part, at);
        done := done + part;
        if err.Some? { return; }
      }
      BelowInside(f, row.id, kids, |kids|);
    }

    /** trash.go:11-23. On every outcome the table stays sound. */
    method Trash(id: Id, ns: string, at: Time) returns (err: Option<Error>, ghost done: set<Id>)
      requires Sound(store.files, store.nextId) && NotLater(store.files, at)
      modifies store`files, store`steps
      ensures Sound(store.files, store.nextId) && NotLater(store.files, at)
      ensures store.files == Marked(old(store.files), done, at)
      ensures TrashedAt(old(store.files), store.files, done, at)
      ensures done <= Subtree(Live(old(store.files)), id) && DownClosed(old(store.files), done)
      ensures err.None? ==> id in Live(old(store.files)) && old(store.files)[id].ns == ns
                            && done == Subtree(Live(old(store.files)), id)
      ensures store.Quiet(old(store.steps), store.steps) ==>
                err == if id !in Live(old(store.files)) then Some(NotFound)
                       else if old(store.files)[id].ns != ns then Some(Forbidden)
                       else None
    {
      ghost var f := store.files;
      done := {};
      var row;
      err, row := store.GetFile(id);
      assert store.files == Marked(f, {}, at);
      if err.Some? { return; }
      if row.None? { return Some(NotFound), {}; }
      if row.value.file.ns != ns { return Some(Forbidden), {}; }
      err, done := TrashTree(row.value, at);
      MarkedSound(f, store.nextId, done, at);
      MarkedAt(f, done, at);
    }

    // ---------- restore ----------

    /** What restore and purge do first: list the bin and search it from `id`. */
    method FindTrashed(id: Id, ns: string) returns (err: Option<Error>, root: Row, tree: seq<Row>)
      modifies store`steps
      ensures store.steps == old(store.steps) + 1
      ensures err == if old(store.steps) in store.faults then Some(StepFailed)
                     else if id !in Trashed(store.files, ns) then Some(NotFound)
                     else None
      ensures err.None? ==> root == Row(id, store.files[id]) && Searched(Trashed(store.files, ns), id, tree)
                            && IdsOf(tree) == Subtree(Trashed(store.files, ns), id)
    {
      ghost var bin := Trashed(store.files, ns);
      root := Row(id, File(None, "", "", 0, "", false, None, None));
      tree := [];
      var items, found;
      err, items := store.ListTrash(ns);
      if err.Some? { return; }
      ListsPart(store.files, bin, items);
      found, tree := TrashTreeByID(items, id, bin);
      if found.None? { return Some(NotFound), root, []; }
      root := found.value;
    }

    /** The loop both restore and purge start with. `done` are the rows restored. */
    method RestoreAll(tree: seq<Row>, ns: string, id: Id) returns (err: Option<Error>, ghost done: set<Id>)
      requires Searched(Trashed(store.files, ns), id, tree)
      modifies store`files, store`steps
      ensures old(store.steps) <= store.steps
      ensures store.files == Unmarked(old(store.files), done)
      ensures done <= IdsOf(tree) && UpClosed(old(store.files), id, done) && (done != {} ==> id in done)
      ensures err.None? <==> store.Quiet(old(store.steps), store.steps)
      ensures err.None? ==> done == IdsOf(tree)
      ensures err.Some? ==> err == Some(StepFailed)
    {
      ghost var f := store.files;
      done := {};
      err := None;
      for i := 0 to |tree|
        invariant err.None? && done == IdsOf(tree[..i]) && store.files == Unmarked(f, done)
        invariant done <= IdsOf(tree) && UpClosed(f, id, done) && (done != {} ==> id in done)
        invariant old(store.steps) <= store.steps && store.Quiet(old(store.steps), store.steps)
      {
        SearchPrefix(Trashed(f, ns), id, tree, i);
        UnmarkOne(f, done, tree[i].id);
        UpClosedSnoc(f, id, done, tree[i].id);
        err := store.RestoreFile(tree[i].id);
        if err.Some? { return; }
        done := done + {tree[i].id};
      }
      assert tree[..|tree|] == tree;
    }

    /** trash.go:49-64. */
    method RestoreFromTrash(id: Id, ns: string) returns (err: Option<Error>, ghost done: set<Id>)
      requires Sound(store.files, store.nextId)
      modifies store`files, store`steps
      ensures store.files == Unmarked(old(store.files), done)
      ensures ActiveAgain(old(store.files), store.files, done)
      ensures store.Quiet(old(store.steps), store.steps) ==>
                (err.None? <==> InBin(old(store.files), id, ns))
      ensures done <= Subtree(Trashed(old(store.files), ns), id) && UpClosed(old(store.files), id, done)
      ensures err.None? ==> id in Trashed(old(store.files), ns)
                            && done == Subtree(Trashed(old(store.files), ns), id)
      ensures store.Quiet(old(store.steps), store.steps) ==>
                err == if id in Trashed(old(store.files), ns) then None else Some(NotFound)
      ensures Sound(store.files, store.nextId) <==> done == {} || ParentOk(old(store.files), id)
    {
      ghost var f := store.files;
      done := {};
      assert store.files == Unmarked(f, {});
      var root, tree;
      err, root, tree := FindTrashed(id, ns);
      if err.Some? { return; }
      err, done := RestoreAll(tree, ns, id);
      if done != {} {
        UnmarkedSound(f, store.nextId, id, done);
      }
    }

    // ---------- purge ----------

    /** trash.go:68-99. `done` are the rows restored first, `committed` says the metadata is
        gone, `queue` names the blobs whose objects were then deleted. A purge that fails
        before that point leaves the restored rows active. */
    method PurgeFromTrash(id: Id, ns: string)
      returns (err: Option<Error>, ghost done: set<Id>, ghost committed: bool, ghost mid: nat, ghost queue: seq<Sha>)
      requires deleter.store == store
      requires Sound(store.files, store.nextId)
      modifies store`files, store`blobs, store`disk, store`steps
      ensures old(store.steps) <= mid <= store.steps
      ensures store.Quiet(old(store.steps), store.steps) ==>
                err == if id in Trashed(old(store.files), ns) then None else Some(NotFound)
      ensures store.Quiet(old(store.steps), store.steps) ==>
                (err.None? <==> InBin(old(store.files), id, ns))
      ensures !committed && id in Trashed(old(store.files), ns) ==> !store.Quiet(old(store.steps), mid)
      ensures err.None? ==> committed
      ensures committed ==> id in Trashed(old(store.files), ns)
      ensures committed ==> store.files == old(store.files) - Subtree(Trashed(old(store.files), ns), id)
      ensures committed && Covered(old(store.files), old(store.blobs)) ==>
                Cleared(store.Quiet(old(store.steps), mid), store.Quiet(mid, store.steps), queue,
                        old(store.Now()), old(store.disk), store.Now(), store.disk)
      ensures !committed ==> store.disk == old(store.disk)
      ensures !committed ==> done <= Subtree(Trashed(old(store.files), ns), id) && UpClosed(old(store.files), id, done)
      ensures !committed ==> Cut(store.files, Unmarked(old(store.files), done))
      ensures Spared(old(store.files), Subtree(Trashed(old(store.files), ns), id), store.files)
      ensures !committed && store.Quiet(mid, store.steps) ==> store.files == Unmarked(old(store.files), done)
      ensures !committed && store.Quiet(mid, store.steps) && Covered(old(store.files), old(store.blobs)) ==>
                store.blobs == Unread(err, old(store.blobs))
      ensures committed || done == {} || ParentOk(old(store.files), id) ==> Sound(store.files, store.nextId)
    {
      done, committed, mid, queue := {}, false, store.steps, [];
      assert store.files == Unmarked(store.files, {});
      var root, tree;
      err, root, tree := FindTrashed(id, ns);
      mid := store.steps;
      if err.None? {
        ghost var step1 := store.steps;
        err, done, committed, mid, queue := PurgeFound(root, tree, ns);
        store.QuietSplit(old(store.steps), step1, mid);
      }
    }

    /** What follows when the item was found. */
    method PurgeFound(root: Row, tree: seq<Row>, ns: string)
      returns (err: Option<Error>, ghost done: set<Id>, ghost committed: bool, ghost mid: nat, ghost queue: seq<Sha>)
      requires deleter.store == store
      requires Sound(store.files, store.nextId)
      requires root.id in Trashed(store.files, ns) && root.file == store.files[root.id]
      requires Searched(Trashed(store.files, ns), root.id, tree)
      requires IdsOf(tree) == Subtree(Trashed(store.files, ns), root.id)
      modifies store`files, store`blobs, store`disk, store`steps
      ensures old(store.steps) <= mid <= store.steps
      ensures store.Quiet(old(store.steps), store.steps) ==> err.None?
      ensures !committed ==> !store.Quiet(old(store.steps), mid)
      ensures err.None? ==> committed
      ensures committed ==> store.files == old(store.files) - Subtree(Trashed(old(store.files), ns), root.id)
      ensures committed && Covered(old(store.files), old(store.blobs)) ==>
                Cleared(store.Quiet(old(store.steps), mid), store.Quiet(mid, store.steps), queue,
                        old(store.Now()), old(store.disk), store.Now(), store.disk)
      ensures !committed ==> store.disk == old(store.disk)
      ensures !committed ==>
                && done <= Subtree(Trashed(old(store.files), ns), root.id) && UpClosed(old(store.files), root.id, done)
                && Cut(store.files, Unmarked(old(store.files), done))
      ensures Spared(old(store.files), Subtree(Trashed(old(store.files), ns), root.id), store.files)
      ensures !committed && store.Quiet(mid, store.steps) ==> store.files == Unmarked(old(store.files), done)
      ensures !committed && store.Quiet(mid, store.steps) && Covered(old(store.files), old(store.blobs)) ==>
                store.blobs == Unread(err, old(store.blobs))
      ensures committed || done == {} || ParentOk(old(store.files), root.id) ==> Sound(store.files, store.nextId)
    {
      ghost var f := store.files;
      committed, queue := false, [];
      err, done := RestoreAll(tree, ns, root.id);
      if done != {} { UnmarkedSound(f, store.nextId, root.id, done); }
      mid := store.steps;
      if err.None? {
        ghost var step1 := store.steps;
        err, committed, mid, queue := DeleteRestored(root, ns, f);
        store.QuietSplit(old(store.steps), step1, mid);
      }
      AfterPurge(f, store.nextId, root.id, done, committed, store.files);
    }

    /** The second half: the rows the search found are active again and are deleted. */
    method DeleteRestored(root: Row, ns: string, ghost f: Files)
      returns (err: Option<Error>, ghost committed: bool, ghost mid: nat, ghost queue: seq<Sha>)
      requires deleter.store == store
      requires WellFormed(f) && TrashClosed(f)
      requires root.id in Trashed(f, ns) && f[root.id] == root.file
      requires store.files == Unmarked(f, Subtree(Trashed(f, ns), root.id))
      modifies store`files, store`blobs, store`disk, store`steps
      ensures old(store.steps) <= mid <= store.steps
      ensures store.Quiet(old(store.steps), store.steps) ==> err.None?
      ensures !committed ==> !store.Quiet(old(store.steps), mid)
      ensures err.None? ==> committed
      ensures committed ==> store.files == f - Subtree(Trashed(f, ns), root.id)
      ensures committed && Covered(f, old(store.blobs)) ==>
                Cleared(store.Quiet(old(store.steps), mid), store.Quiet(mid, store.steps), queue,
                        Tables(f, old(store.blobs)), old(store.disk), store.Now(), store.disk)
      ensures !committed ==>
                NotDeleted(Covered(f, old(store.blobs)), store.Quiet(mid, store.steps), err,
                           Subtree(Trashed(f, ns), root.id),
                                        old(store.Now()), old(store.disk), store.Now(), store.disk)
    {
      ghost var t, m, blobs0 := Subtree(Trashed(f, ns), root.id), store.files, store.blobs;
      RestoredReady(f, ns, root.id, store.blobs);
      if root.file.isDir {
        err, mid, queue := deleter.DeleteDirDeferred(root, ns);
        committed := err.None?;
      } else {
        FileSubtree(store.files, Live(store.files), root.id);
        err, committed, mid, queue := deleter.PurgeFile(root);
      }
      if committed && Covered(f, blobs0) {
        SlackSameRows(f, m, blobs0, store.files, store.blobs);
      }
    }
  }

  /** A purge leaves a sound table if it removed its tree or restored under no trashed row. */
  lemma AfterPurge(f: Files, next: Id, id: Id, done: set<Id>, committed: bool, f': Files)
    requires Sound(f, next) && (done != {} ==> (Sound(Unmarked(f, done), next) <==> ParentOk(f, id)))
    requires if committed then Cut(f', f) else Cut(f', Unmarked(f, done))
    ensures committed || done == {} || ParentOk(f, id) ==> Sound(f', next)
  {
    if committed {
      SoundCut(f, f', next);
    } else if done == {} {
      assert Unmarked(f, {}) == f;
      SoundCut(f, f', next);
    } else if ParentOk(f, id) {
      SoundCut(Unmarked(f, done), f', next);
    }
  }

  /** The table a purge hands to the deletion. */
  lemma RestoredReady(f: Files, ns: string, id: Id, blobs: Blobs)
    requires WellFormed(f) && TrashClosed(f) && id in Trashed(f, ns)
    ensures var t := Subtree(Trashed(f, ns), id); var m := Unmarked(f, t);
            && WellFormed(m) && Subtree(Live(m), id) == t && t <= f.Keys && id in t
            && m - t == f - t && m[id] == f[id].(deletedAt := None)
            && (Covered(f, blobs) <==> Covered(m, blobs))
  {
    var t := Subtree(Trashed(f, ns), id);
    AcyclicMono(f, Unmarked(f, t));
    EdgesKept(f, Unmarked(f, t));
    SearchIsWalk(f, ns, id);
    forall s | s in blobs ensures Count(Unmarked(f, t), s) == Count(f, s) {
      CountMarked(f, t, 0, s);
    }
  }

  lemma SlackSameRows(f: Files, f': Files, b0: Blobs, f1: Files, b1: Blobs)
    requires SameSlack(f', b0, f1, b1)
    requires f.Keys == f'.Keys && forall x | x in f :: f[x].sha == f'[x].sha
    ensures SameSlack(f, b0, f1, b1)
  {
    forall s | s in b0 ensures Count(f, s) == Count(f', s) { CountSame(f, f', s); }
  }

  /** The next row of a search is new, and its parent, unless it is the top, was taken. */
  lemma SearchPrefix(bin: Files, id: Id, tree: seq<Row>, i: nat)
    requires Searched(bin, id, tree) && i < |tree|
    ensures IdsOf(tree[..i + 1]) == IdsOf(tree[..i]) + {tree[i].id}
    ensures tree[i].id in bin && tree[i].id !in IdsOf(tree[..i]) && tree[i].id in IdsOf(tree)
    ensures if i == 0 then tree[i].id == id
            else bin[tree[i].id].parent.Some? && bin[tree[i].id].parent.value in IdsOf(tree[..i])
  {
    assert tree[..i + 1] == tree[..i] + [tree[i]];
    IdsSnoc(tree[..i], tree[i]);
    if i > 0 {
      assert AfterParent(tree, i);
      var j :| 0 <= j < i && tree[i].file.parent == Some(tree[j].id);
      assert tree[..i][j].id == tree[j].id;
    }
  }

  lemma UpClosedSnoc(f: Files, top: Id, ids: set<Id>, x: Id)
    requires UpClosed(f, top, ids) && (x == top || ParentAmong(f, ids, x))
    ensures UpClosed(f, top, ids + {x})
  {
    forall y | y in ids + {x} && y != top ensures ParentAmong(f, ids + {x}, y) {
      assert y in ids ==> ParentAmong(f, ids, y);
    }
  }

  lemma UnmarkOne(f: Files, done: set<Id>, x: Id)
    requires x in f && x !in done
    ensures Unmarked(f, done)[x] == f[x]
    ensures Unmarked(f, done)[x := f[x].(deletedAt := None)] == Unmarked(f, done + {x})
  {
  }

  lemma ListsPart(f: Files, bin: Files, rows: seq<Row>)
    requires Lists(f, rows, bin.Keys) && forall x | x in bin :: x in f && bin[x] == f[x]
    ensures Lists(bin, rows, bin.Keys)
  {
  }
}
