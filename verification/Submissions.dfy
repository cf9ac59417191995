/** SubmitDir (internal/domain/upload.go:634-805): check the whole manifest, make the
    directories parents first, file every item, move its content to a readable path. */
module Submissions {
  import opened Types
  import opened Forest
  import opened Refs
  import opened Stores
  import opened Tree
  import opened Content
  import opened Sorting
  import opened Paths
  import opened Layouts
  import opened DirTrees
  import opened CopyTables

  /** HierarchicalPath over the filtered names. */
  function ReadablePath(ns: string, name: string, path: string, safe: string -> string): Path {
    ns + "/" + safe(name) + "/" + SafeRelative(path, safe)
  }

  /** No readable path is the path of other content of `keep`, nor, unless the content is the
      same, of another item; what the items name belongs to `keep`. */
  ghost predicate PathsClear(m: Files, blobs: Blobs, keep: set<Sha>, items: seq<Item>, ns: string, name: string,
                             safe: string -> string) {
    && (forall i | 0 <= i < |items| && items[i].id in m && m[items[i].id].sha.Some? :: m[items[i].id].sha.value in keep)
    && (forall i, t | 0 <= i < |items| && t in blobs && t in keep
                      && items[i].id in m && m[items[i].id].sha != Some(t) ::
          blobs[t].path != ReadablePath(ns, name, items[i].path, safe))
    && (forall i, j | 0 <= i < j < |items| && items[i].id in m && items[j].id in m
                      && ReadablePath(ns, name, items[i].path, safe) == ReadablePath(ns, name, items[j].path, safe) ::
          m[items[i].id].sha == m[items[j].id].sha)
  }

  /** Only paths changed, and only to the readable path of an item with that content. */
  ghost predicate PathsFollow(m: Files, b0: Blobs, b: Blobs, items: seq<Item>, k: nat, ns: string, name: string,
                              safe: string -> string)
    requires k <= |items|
  {
    && b.Keys == b0.Keys
    && forall t | t in b :: b[t].refs == b0[t].refs && b[t].size == b0[t].size
                            && (b[t].path == b0[t].path || GoesTo(m, t, b[t].path, items, k, ns, name, safe))
  }

  ghost predicate GoesTo(m: Files, t: Sha, path: Path, items: seq<Item>, k: nat, ns: string, name: string,
                         safe: string -> string)
    requires k <= |items|
  {
    exists i :: 0 <= i < k && items[i].id in m && m[items[i].id].sha == Some(t)
      && path == ReadablePath(ns, name, items[i].path, safe)
  }

  /** The content of each of the first items lies at the readable path of an item. */
  ghost predicate Delivered(m: Files, b: Blobs, items: seq<Item>, k: nat, ns: string, name: string,
                            safe: string -> string)
    requires k <= |items|
  {
    forall i | 0 <= i < k && items[i].id in m && m[items[i].id].sha.Some? ::
      var s := m[items[i].id].sha.value; s in b && GoesTo(m, s, b[s].path, items, k, ns, name, safe)
  }

  /** The content is on disk: at the path its row says or, if no object lies there, moved to the
      readable path of one of the first items without that having been recorded. */
  ghost predicate AtHand(m: Files, b: Blobs, d: Disk, t: Sha, items: seq<Item>, k: nat, ns: string, name: string,
                         safe: string -> string, hash: Bytes -> Sha)
    requires k <= |items|
  {
    t in b && (Holds(b[t], t, d, hash)
               || (b[t].path !in d
                   && exists path :: Holds(b[t].(path := path), t, d, hash)
                                     && GoesTo(m, t, path, items, k, ns, name, safe)))
  }

  ghost predicate AllAtHand(keep: set<Sha>, m: Files, b: Blobs, d: Disk, items: seq<Item>, k: nat, ns: string,
                            name: string, safe: string -> string, hash: Bytes -> Sha)
    requires k <= |items|
  {
    forall t | t in keep :: AtHand(m, b, d, t, items, k, ns, name, safe, hash)
  }

  /** Unless a path was taken every content of `keep` is still on disk; if nothing failed either,
      it is where its row says, and the items' content where it was to go. */
  ghost predicate Placed(clear: bool, quiet: bool, keep: set<Sha>, hash: Bytes -> Sha, m: Files,
                         b0: Blobs, d0: Disk, b: Blobs, d: Disk, items: seq<Item>, k: nat, ns: string, name: string,
                         safe: string -> string)
    requires k <= |items|
  {
    clear && AllHold(keep, b0, d0, hash) ==>
      && AllAtHand(keep, m, b, d, items, k, ns, name, safe, hash)
      && (quiet ==> AllHold(keep, b, d, hash) && Delivered(m, b, items, k, ns, name, safe))
  }

  /** Content some count refers to. */
  function Referenced(blobs: Blobs): set<Sha> {
    set t | t in blobs && blobs[t].refs > 0
  }

  /** With all referenced content for `keep`, this is the invariant of the store. */
  lemma ReferencedStored(m: Files, b0: Blobs, b: Blobs, disk: Disk, items: seq<Item>, k: nat, ns: string, name: string,
                         safe: string -> string, hash: Bytes -> Sha)
    requires k <= |items| && PathsFollow(m, b0, b, items, k, ns, name, safe)
    ensures AllHold(Referenced(b0), b, disk, hash) <==> Stored(b, disk, hash)
  {
  }

  lemma NextFollows(m: Files, b0: Blobs, b: Blobs, items: seq<Item>, k: nat, ns: string, name: string,
                    safe: string -> string, s: Sha, p: Progress)
    requires k < |items| && PathsFollow(m, b0, b, items, k, ns, name, safe)
    requires items[k].id in m && m[items[k].id].sha == Some(s)
    ensures PathsFollow(m, b0, BlobsAfter(b, s, ReadablePath(ns, name, items[k].path, safe), p), items, k + 1, ns, name,
                        safe)
  {
  }

  lemma FollowMore(m: Files, b0: Blobs, b: Blobs, items: seq<Item>, k: nat, ns: string, name: string,
                   safe: string -> string)
    requires k < |items| && PathsFollow(m, b0, b, items, k, ns, name, safe)
    ensures PathsFollow(m, b0, b, items, k + 1, ns, name, safe)
  {
  }

  /** With clear paths, a move whose record was not lost leaves all content of `keep` in place. */
  lemma NextHeld(m: Files, b0: Blobs, b: Blobs, disk: Disk, keep: set<Sha>, items: seq<Item>, k: nat, ns: string,
                 name: string, safe: string -> string, s: Sha, p: Progress, hash: Bytes -> Sha)
    requires k < |items| && PathsFollow(m, b0, b, items, k, ns, name, safe)
    requires PathsClear(m, b0, keep, items, ns, name, safe)
    requires AllHold(keep, b, disk, hash) && !p.PathStale?
    requires items[k].id in m && m[items[k].id].sha == Some(s)
    requires !p.Untouched? ==> s in b && b[s].path != ReadablePath(ns, name, items[k].path, safe)
    ensures var dest := ReadablePath(ns, name, items[k].path, safe);
            AllHold(keep, BlobsAfter(b, s, dest, p), DiskAfter(b, disk, s, dest, p), hash)
  {
    var dest := ReadablePath(ns, name, items[k].path, safe);
    forall t | t in keep && t != s ensures b[t].path != dest {
      if b[t].path != b0[t].path {
        var i :| 0 <= i < k && items[i].id in m && m[items[i].id].sha == Some(t)
                 && b[t].path == ReadablePath(ns, name, items[i].path, safe);
      }
    }
    MoveKeepsHeld(keep, b, disk, s, dest, p, hash);
  }

  /** With clear paths no content of `keep` leaves the disk, however far a move gets. */
  lemma NextAtHand(m: Files, b0: Blobs, b: Blobs, disk: Disk, keep: set<Sha>, items: seq<Item>, k: nat, ns: string,
                   name: string, safe: string -> string, s: Sha, p: Progress, hash: Bytes -> Sha)
    requires k < |items| && PathsFollow(m, b0, b, items, k, ns, name, safe)
    requires PathsClear(m, b0, keep, items, ns, name, safe)
    requires AllAtHand(keep, m, b, disk, items, k, ns, name, safe, hash)
    requires items[k].id in m && m[items[k].id].sha == Some(s)
    requires !p.Untouched? ==>
               s in b && b[s].path in disk && b[s].path != ReadablePath(ns, name, items[k].path, safe)
    ensures var dest := ReadablePath(ns, name, items[k].path, safe);
            AllAtHand(keep, m, BlobsAfter(b, s, dest, p), DiskAfter(b, disk, s, dest, p), items, k + 1, ns, name, safe,
                      hash)
  {
    var dest := ReadablePath(ns, name, items[k].path, safe);
    var b', d' := BlobsAfter(b, s, dest, p), DiskAfter(b, disk, s, dest, p);
    assert AtHand(m, b, disk, s, items, k, ns, name, safe, hash);
    forall t | t in keep ensures AtHand(m, b', d', t, items, k + 1, ns, name, safe, hash) {
      assert AtHand(m, b, disk, t, items, k, ns, name, safe, hash);
      if t == s {
        SameAtHand(m, b, disk, s, items, k, ns, name, safe, p, hash);
      } else {
        OtherApart(m, b0, b, keep, items, k, ns, name, safe, s, t);
        OtherAtHand(m, b, disk, items, k, ns, name, safe, s, t, p, hash);
      }
    }
  }

  lemma SameAtHand(m: Files, b: Blobs, disk: Disk, s: Sha, items: seq<Item>, k: nat, ns: string, name: string,
                   safe: string -> string, p: Progress, hash: Bytes -> Sha)
    requires k < |items| && items[k].id in m && m[items[k].id].sha == Some(s)
    requires AtHand(m, b, disk, s, items, k, ns, name, safe, hash)
    requires !p.Untouched? ==> b[s].path in disk && b[s].path != ReadablePath(ns, name, items[k].path, safe)
    ensures var dest := ReadablePath(ns, name, items[k].path, safe);
            AtHand(m, BlobsAfter(b, s, dest, p), DiskAfter(b, disk, s, dest, p), s, items, k + 1, ns, name, safe, hash)
  {
    var dest := ReadablePath(ns, name, items[k].path, safe);
    if p.PathStale? {
      assert GoesTo(m, s, dest, items, k + 1, ns, name, safe);
      assert Holds(b[s].(path := dest), s, DiskAfter(b, disk, s, dest, p), hash);
    }
  }

  /** Neither where other content lies nor where it may have gone is this item's readable path. */
  lemma OtherApart(m: Files, b0: Blobs, b: Blobs, keep: set<Sha>, items: seq<Item>, k: nat, ns: string, name: string,
                   safe: string -> string, s: Sha, t: Sha)
    requires k < |items| && PathsFollow(m, b0, b, items, k, ns, name, safe)
    requires PathsClear(m, b0, keep, items, ns, name, safe)
    requires items[k].id in m && m[items[k].id].sha == Some(s) && t in keep && t in b && t != s
    ensures b[t].path != ReadablePath(ns, name, items[k].path, safe)
    ensures !GoesTo(m, t, ReadablePath(ns, name, items[k].path, safe), items, k, ns, name, safe)
  {
  }

  lemma OtherAtHand(m: Files, b: Blobs, disk: Disk, items: seq<Item>, k: nat, ns: string, name: string,
                    safe: string -> string, s: Sha, t: Sha, p: Progress, hash: Bytes -> Sha)
    requires k < |items| && t != s && s in b
    requires AtHand(m, b, disk, s, items, k, ns, name, safe, hash)
    requires AtHand(m, b, disk, t, items, k, ns, name, safe, hash)
    requires b[t].path != ReadablePath(ns, name, items[k].path, safe)
    requires !GoesTo(m, t, ReadablePath(ns, name, items[k].path, safe), items, k, ns, name, safe)
    ensures var dest := ReadablePath(ns, name, items[k].path, safe);
            AtHand(m, BlobsAfter(b, s, dest, p), DiskAfter(b, disk, s, dest, p), t, items, k + 1, ns, name, safe, hash)
  {
    var dest := ReadablePath(ns, name, items[k].path, safe);
    var b', d' := BlobsAfter(b, s, dest, p), DiskAfter(b, disk, s, dest, p);
    if !Holds(b[t], t, disk, hash) {
      var path :| Holds(b[t].(path := path), t, disk, hash) && GoesTo(m, t, path, items, k, ns, name, safe);
      assert Holds(b'[t].(path := path), t, d', hash) && GoesTo(m, t, path, items, k + 1, ns, name, safe);
    }
  }

  lemma NextDelivered(m: Files, b: Blobs, items: seq<Item>, k: nat, ns: string, name: string, safe: string -> string,
                      p: Progress)
    requires k < |items| && Delivered(m, b, items, k, ns, name, safe)
    requires items[k].id in m
    ensures m[items[k].id].sha.None? ==> Delivered(m, b, items, k + 1, ns, name, safe)
    ensures m[items[k].id].sha.Some? ==>
              var s, dest := m[items[k].id].sha.value, ReadablePath(ns, name, items[k].path, safe);
              var b' := BlobsAfter(b, s, dest, p);
              s in b' && b'[s].path == dest ==> Delivered(m, b', items, k + 1, ns, name, safe)
  {
  }

  class Submitter {
    const store: Store
    /** The storage-name filter, and the start of an identifier. */
    const safe: string -> string
    const short: Id -> string

    constructor (store: Store, safe: string -> string, short: Id -> string)
      ensures this.store == store && this.safe == safe && this.short == short
    {
      this.store, this.safe, this.short := store, safe, short;
    }

    /** upload.go:634-668. */
    method ValidateDirManifest(items: seq<Item>, ns: string) returns (err: Option<Error>)
      modifies store`steps
      ensures old(store.steps) <= store.steps
      ensures err.None? ==> DirTrees.Valid(store.files, items, ns)
      ensures store.Quiet(old(store.steps), store.steps) ==> (err.None? <==> DirTrees.Valid(store.files, items, ns))
      ensures store.Quiet(old(store.steps), store.steps) ==> err == ManifestAnswer(store.files, items, ns)
    {
      if |items| > MAX_DIR_ENTRIES { return Some(InvalidArgument); }
      var seenPaths: set<string> := {};
      var seenFiles: set<Id> := {};
      err := None;
      var i := 0;
      while i < |items| && err.None?
        invariant i <= |items| && old(store.steps) <= store.steps
        invariant err.None? ==> Checked(store.files, items, i, ns, seenPaths, seenFiles)
        invariant store.Quiet(old(store.steps), store.steps) ==> err == FirstAnswer(store.files, items, i, ns)
      {
        ghost var step1 := store.steps;
        err := CheckItem(items[i], ns, seenPaths, seenFiles);
        store.QuietSplit(old(store.steps), step1, store.steps);
        NextChecked(store.files, items, i, ns, seenPaths, seenFiles);
        seenPaths, seenFiles := seenPaths + {items[i].path}, seenFiles + {items[i].id};
        i := i + 1;
      }
      if err.Some? && store.Quiet(old(store.steps), store.steps) { FirstStays(store.files, items, i, |items|, ns); }
      NoneRefused(store.files, items, |items|, ns);
    }

    method CheckItem(e: Item, ns: string, seenPaths: set<string>, seenFiles: set<Id>) returns (err: Option<Error>)
      modifies store`steps
      ensures old(store.steps) <= store.steps
      ensures err.None? ==> NewItem(store.files, e, ns, seenPaths, seenFiles)
      ensures store.Quiet(old(store.steps), store.steps) ==>
                err == ItemAnswer(store.files, e, ns, e.path in seenPaths || e.id in seenFiles)
    {
      if !SafePath(e.path) || e.path in seenPaths || e.id in seenFiles { return Some(InvalidArgument); }
      var file;
      err, file := store.GetFile(e.id);
      if err.Some? { return; }
      if file.None? || file.value.file.isDir { return Some(InvalidArgument); }
      if file.value.file.ns != ns { return Some(Forbidden); }
    }

    /** The set of directories the items need. */
    method CollectDirs(items: seq<Item>) returns (dirPaths: set<string>)
      ensures dirPaths == DirPaths(items)
    {
      dirPaths := {};
      for i := 0 to |items|
        invariant dirPaths == DirPaths(items[..i])
      {
        var path := items[i].path;
        for j := 0 to |path|
          invariant dirPaths == DirPaths(items[..i]) + set n | 0 <= n < j && path[n] == '/' :: path[..n]
        {
          if path[j] == '/' { dirPaths := dirPaths + {path[..j]}; }
        }
        PathsSnoc(items, i);
      }
      assert items[..|items|] == items;
    }

    /** The map's keys in some order, then sorted. */
    method SortDirs(dirPaths: set<string>) returns (sorted: seq<string>)
      ensures Distinct(sorted) && (forall p :: p in sorted <==> p in dirPaths) && Sorted(sorted, Leq)
    {
      var listed: seq<string> := [];
      var todo := dirPaths;
      while todo != {}
        invariant todo <= dirPaths && Distinct(listed) && forall p :: p in listed <==> p in dirPaths && p !in todo
      {
        var p :| p in todo;
        listed := listed + [p];
        todo := todo - {p};
      }
      LeqOrder();
      sorted := Sort(listed, Leq);
      DistinctPermuted(listed, sorted);
      SameMembers(listed, sorted);
    }

    /** upload.go:738-762: one row per directory, in path order. */
    method MakeDirs(sorted: seq<string>, dirID: Id, ghost name: string, ns: string, ghost m0: Files,
                    ghost items: seq<Item>)
      returns (err: Option<Error>, dirs: Dirs)
      requires Built(m0, dirID, store.files, store.nextId, name, ns, map["" := dirID], items, 0, true)
      requires IdsBelow(m0, dirID)
      requires ParentsFirst(sorted)
      modifies store`files, store`nextId, store`steps
      ensures old(store.steps) <= store.steps
      ensures err.None? <==> store.Quiet(old(store.steps), store.steps)
      ensures Built(m0, dirID, store.files, store.nextId, name, ns, dirs, items, 0, true)
      ensures err.None? ==> dirs.Keys == FirstPaths(sorted, |sorted|)
    {
      dirs := map["" := dirID];
      err := None;
      var i := 0;
      while i < |sorted| && err.None?
        invariant i <= |sorted| && old(store.steps) <= store.steps
        invariant err.None? <==> store.Quiet(old(store.steps), store.steps)
        invariant Built(m0, dirID, store.files, store.nextId, name, ns, dirs, items, 0, true)
        invariant err.None? ==> dirs.Keys == FirstPaths(sorted, i)
      {
        ghost var step1 := store.steps;
        NextPath(sorted, i);
        err, dirs := MakeNext(sorted[i], dirs, dirID, name, ns, m0, items);
        store.QuietSplit(old(store.steps), step1, store.steps);
        i := i + 1;
      }
    }

    /** The row of one directory. */
    method MakeDir(row: File) returns (err: Option<Error>, id: Id)
      requires Active(row)
      modifies store`files, store`nextId, store`steps
      ensures store.steps == old(store.steps) + 1 && id == old(store.nextId) && store.nextId == id + 1
      ensures err == if old(store.steps) in store.faults || id in old(store.files) then Some(StepFailed) else None
      ensures store.files == if err.None? then old(store.files)[id := row] else old(store.files)
    {
      id := store.NewID();
      err := store.PutFile(id, row);
    }

    /** One turn of that loop: the row is made under its parent's. */
    method MakeNext(p: string, dirs0: Dirs, ghost dirID: Id, ghost name: string, ns: string, ghost m0: Files,
                    ghost items: seq<Item>)
      returns (err: Option<Error>, dirs: Dirs)
      requires Built(m0, dirID, store.files, store.nextId, name, ns, dirs0, items, 0, true) && IdsBelow(m0, dirID)
      requires p != "" && p !in dirs0 && Parent(p) in dirs0
      modifies store`files, store`nextId, store`steps
      ensures store.steps == old(store.steps) + 1
      ensures err.None? <==> store.Quiet(old(store.steps), store.steps)
      ensures Built(m0, dirID, store.files, store.nextId, name, ns, dirs, items, 0, true)
      ensures dirs.Keys == if err.None? then dirs0.Keys + {p} else dirs0.Keys
    {
      ghost var m, next := store.files, store.nextId;
      NextFree(m0, dirID, m, next, name, ns, dirs0, items);
      err, dirs := MakeUnder(p, FolderOf(dirs0, p), ns, dirs0);
      AddDir(m0, dirID, m, next, name, ns, dirs0, items, p, FolderOf(dirs0, p), err.None?, store.files, dirs);
    }

    /** The row, and its place in the map. */
    method MakeUnder(p: string, parentID: Id, ns: string, dirs0: Dirs) returns (err: Option<Error>, dirs: Dirs)
      requires store.nextId !in store.files
      modifies store`files, store`nextId, store`steps
      ensures store.steps == old(store.steps) + 1 && store.nextId == old(store.nextId) + 1
      ensures err.None? <==> store.Quiet(old(store.steps), store.steps)
      ensures store.files == if err.Some? then old(store.files)
                             else old(store.files)[old(store.nextId) := DirRow(Base(p), p, ns, Some(parentID))]
      ensures dirs == if err.None? then dirs0[p := old(store.nextId)] else dirs0
    {
      var subDirID;
      err, subDirID := MakeDir(DirRow(Base(p), p, ns, Some(parentID)));
      dirs := if err.None? then dirs0[p := subDirID] else dirs0;
    }

    /** upload.go:765-801: file one item and move its content. Failures are only logged. */
    method PlaceItem(e: Item, dirs: Dirs, ns: string, name: string) returns (ghost s: Option<Sha>, ghost p: Progress)
      requires "" in dirs
      modifies store`files, store`blobs, store`disk, store`steps
      ensures old(store.steps) < store.steps
      ensures ItemPlaced(e.id, FolderOf(dirs, e.path), e.path, ReadablePath(ns, name, e.path, safe),
                         store.Quiet(old(store.steps), store.steps), s, p,
                         old(store.Now()), old(store.disk), store.Now(), store.disk)
    {
      s, p := None, Untouched;
      var err, row := store.GetFile(e.id);
      if err.Some? || row.None? { return; }
      var parentID := FolderOf(dirs, e.path);
      err := store.ReparentFile(e.id, Some(parentID), e.path);
      if row.value.file.sha.Some? {
        s := row.value.file.sha;
        p := Relocate(store, row.value.file.sha.value, ReadablePath(ns, name, e.path, safe));
      }
    }

    /** One turn of that loop: what it does to the tree, to the blobs' paths, to the content. */
    method PlaceNth(items: seq<Item>, i: nat, dirs: Dirs, name: string, ns: string, ghost root: Id, ghost m0: Files,
                    ghost b0: Blobs, ghost d0: Disk, ghost keep: set<Sha>, ghost hash: Bytes -> Sha, ghost quiet: bool)
      requires i < |items| && Built(m0, root, store.files, store.nextId, name, ns, dirs, items, i, quiet)
      requires IdsBelow(m0, root) && DirTrees.Valid(m0, items, ns) && dirs.Keys == DirPaths(items) + {""}
      requires PathsFollow(m0, b0, store.blobs, items, i, ns, name, safe)
      requires Placed(PathsClear(m0, b0, keep, items, ns, name, safe), quiet, keep, hash,
                      m0, b0, d0, store.blobs, store.disk, items, i, ns, name, safe)
      modifies store`files, store`blobs, store`disk, store`steps
      ensures old(store.steps) <= store.steps
      ensures Built(m0, root, store.files, store.nextId, name, ns, dirs, items, i + 1,
                    quiet && store.Quiet(old(store.steps), store.steps))
      ensures PathsFollow(m0, b0, store.blobs, items, i + 1, ns, name, safe)
      ensures Placed(PathsClear(m0, b0, keep, items, ns, name, safe),
                     quiet && store.Quiet(old(store.steps), store.steps), keep, hash,
                     m0, b0, d0, store.blobs, store.disk, items, i + 1, ns, name, safe)
    {
      ghost var t, disk := store.Now(), store.disk;
      NotYetFiled(m0, root, t.files, store.nextId, name, ns, dirs, items, i, quiet);
      ghost var s, p := PlaceItem(items[i], dirs, ns, name);
      ghost var q := store.Quiet(old(store.steps), store.steps);
      TurnFiled(m0, root, t, store.nextId, name, ns, dirs, items, i, quiet, q, s, p, safe, disk, store.Now(),
                store.disk);
      TurnPlaced(m0, b0, d0, t, disk, keep, items, i, ns, name, safe, FolderOf(dirs, items[i].path), s, p,
                 quiet, q, hash, store.Now(), store.disk);
    }

    /** The loop over the items. */
    method PlaceItems(items: seq<Item>, dirs: Dirs, name: string, ns: string, ghost root: Id, ghost m0: Files,
                      ghost keep: set<Sha>, ghost hash: Bytes -> Sha)
      requires Built(m0, root, store.files, store.nextId, name, ns, dirs, items, 0, true)
      requires IdsBelow(m0, root) && DirTrees.Valid(m0, items, ns) && dirs.Keys == DirPaths(items) + {""}
      modifies store`files, store`blobs, store`disk, store`steps
      ensures old(store.steps) <= store.steps
      ensures Built(m0, root, store.files, store.nextId, name, ns, dirs, items, |items|,
                    store.Quiet(old(store.steps), store.steps))
      ensures PathsFollow(m0, old(store.blobs), store.blobs, items, |items|, ns, name, safe)
      ensures Placed(PathsClear(m0, old(store.blobs), keep, items, ns, name, safe),
                     store.Quiet(old(store.steps), store.steps), keep, hash,
                     m0, old(store.blobs), old(store.disk), store.blobs, store.disk, items, |items|, ns, name, safe)
    {
      ghost var b0, d0 := store.blobs, store.disk;
      for i := 0 to |items|
        invariant old(store.steps) <= store.steps
        invariant Built(m0, root, store.files, store.nextId, name, ns, dirs, items, i,
                        store.Quiet(old(store.steps), store.steps))
        invariant PathsFollow(m0, b0, store.blobs, items, i, ns, name, safe)
        invariant Placed(PathsClear(m0, b0, keep, items, ns, name, safe),
                     store.Quiet(old(store.steps), store.steps), keep, hash,
                         m0, b0, d0, store.blobs, store.disk, items, i, ns, name, safe)
      {
        ghost var step1 := store.steps;
        PlaceNth(items, i, dirs, name, ns, root, m0, b0, d0, keep, hash, store.Quiet(old(store.steps), step1));
        store.QuietSplit(old(store.steps), step1, store.steps);
      }
    }

    /** upload.go:692-805. With nothing failing, exactly the valid manifests are accepted, the
        whole tree is built and all content delivered. `keep` is any set of contents: with clear
        paths they stay on disk whatever fails. */
    method SubmitDir(name: string, items: seq<Item>, ns: string, ghost keep: set<Sha>, ghost hash: Bytes -> Sha)
      returns (err: Option<Error>, root: Id, ghost dirs: Dirs, ghost dirName: string)
      requires Sound(store.files, store.nextId)
      modifies store`files, store`blobs, store`disk, store`nextId, store`steps
      ensures Sound(store.files, store.nextId)
      ensures dirName == if name == "" then "dir_" + short(old(store.nextId)) else name
      ensures err.Some? ==> Extended(old(store.files), old(store.nextId), store.files)
                            && store.blobs == old(store.blobs) && store.disk == old(store.disk)
      ensures UsedGrows(old(store.files), store.files, ns, 0)
      ensures err.None? ==>
                && root == old(store.nextId) && DirTrees.Valid(old(store.files), items, ns)
                && dirs.Keys == DirPaths(items) + {""}
                && Built(old(store.files), root, store.files, store.nextId, dirName, ns, dirs, items, |items|,
                         store.Quiet(old(store.steps), store.steps))
                && PathsFollow(old(store.files), old(store.blobs), store.blobs, items, |items|, ns, dirName, safe)
      ensures store.Quiet(old(store.steps), store.steps) ==>
                (err.None? <==> DirTrees.Valid(old(store.files), items, ns))
      ensures store.Quiet(old(store.steps), store.steps) ==> err == ManifestAnswer(old(store.files), items, ns)
      ensures err.None? ==>
                Placed(PathsClear(old(store.files), old(store.blobs), keep, items, ns, dirName, safe),
                       store.Quiet(old(store.steps), store.steps), keep, hash, old(store.files), old(store.blobs),
                       old(store.disk), store.blobs, store.disk, items, |items|, ns, dirName, safe)
    {
      dirs, root, dirName := map[], 0, if name == "" then "dir_" + short(store.nextId) else name;
      err := ValidateDirManifest(items, ns);
      if err.None? {
        ghost var step1 := store.steps;
        err, root, dirs := BuildDir(if name == "" then "dir_" + short(store.nextId) else name, items, ns, keep, hash);
        store.QuietSplit(old(store.steps), step1, store.steps);
      }
    }

    /** The part that changes something. */
    method BuildDir(dirName: string, items: seq<Item>, ns: string, ghost keep: set<Sha>, ghost hash: Bytes -> Sha)
      returns (err: Option<Error>, root: Id, ghost made: Dirs)
      requires Sound(store.files, store.nextId) && DirTrees.Valid(store.files, items, ns)
      modifies store`files, store`blobs, store`disk, store`nextId, store`steps
      ensures UsedGrows(old(store.files), store.files, ns, 0)
      ensures old(store.steps) <= store.steps
      ensures Sound(store.files, store.nextId)
      ensures err.Some? ==> Extended(old(store.files), old(store.nextId), store.files)
                            && store.blobs == old(store.blobs) && store.disk == old(store.disk)
      ensures err.None? ==>
                && root == old(store.nextId) && made.Keys == DirPaths(items) + {""}
                && Built(old(store.files), root, store.files, store.nextId, dirName, ns, made, items, |items|,
                         store.Quiet(old(store.steps), store.steps))
                && PathsFollow(old(store.files), old(store.blobs), store.blobs, items, |items|, ns, dirName, safe)
      ensures store.Quiet(old(store.steps), store.steps) ==> err.None?
      ensures err.None? ==>
                Placed(PathsClear(old(store.files), old(store.blobs), keep, items, ns, dirName, safe),
                       store.Quiet(old(store.steps), store.steps), keep, hash, old(store.files), old(store.blobs),
                       old(store.disk), store.blobs, store.disk, items, |items|, ns, dirName, safe)
    {
      ghost var m0 := store.files;
      var dirs;
      err, root, dirs := MakeTree(dirName, items, ns);
      made := dirs;
      if err.None? {
        ghost var step2 := store.steps;
        PlaceItems(items, dirs, dirName, ns, root, m0, keep, hash);
        store.QuietSplit(old(store.steps), step2, store.steps);
        BuiltUses(m0, root, store.files, store.nextId, dirName, ns, dirs, items, |items|,
                  store.Quiet(step2, store.steps));
      }
    }

    /** The directories the items need, parents first. */
    method ListDirs(items: seq<Item>, ghost m: Files, ghost ns: string) returns (sorted: seq<string>)
      requires DirTrees.Valid(m, items, ns)
      ensures ParentsFirst(sorted) && FirstPaths(sorted, |sorted|) == DirPaths(items) + {""}
    {
      var dirPaths := CollectDirs(items);
      sorted := SortDirs(dirPaths);
      ItemsSafe(m, items, ns);
      SortedParentsFirst(items, sorted);
    }

    method MakeRoot(dirName: string, ns: string, ghost items: seq<Item>) returns (err: Option<Error>, root: Id)
      requires Sound(store.files, store.nextId)
      modifies store`files, store`nextId, store`steps
      ensures store.steps == old(store.steps) + 1 && root == old(store.nextId) && Sound(store.files, store.nextId)
      ensures err.None? <==> store.Quiet(old(store.steps), store.steps)
      ensures err.Some? ==> store.files == old(store.files)
      ensures err.None? ==>
                && IdsBelow(old(store.files), root)
                && Built(old(store.files), root, store.files, store.nextId, dirName, ns, map["" := root], items, 0,
                         true)
    {
      RootMade(store.files, store.nextId, dirName, ns, items, true);
      err, root := MakeDir(DirRow(dirName, "/", ns, None));
    }

    /** The root and the directories. */
    method MakeTree(dirName: string, items: seq<Item>, ns: string) returns (err: Option<Error>, root: Id, dirs: Dirs)
      requires Sound(store.files, store.nextId) && DirTrees.Valid(store.files, items, ns)
      modifies store`files, store`nextId, store`steps
      ensures UsedGrows(old(store.files), store.files, ns, 0)
      ensures old(store.steps) <= store.steps
      ensures Sound(store.files, store.nextId) && Extended(old(store.files), old(store.nextId), store.files)
      ensures err.None? <==> store.Quiet(old(store.steps), store.steps)
      ensures err.None? ==>
                && root == old(store.nextId) && IdsBelow(old(store.files), root) && dirs.Keys == DirPaths(items) + {""}
                && Built(old(store.files), root, store.files, store.nextId, dirName, ns, dirs, items, 0, true)
    {
      ghost var m0 := store.files;
      dirs := map[];
      err, root := MakeRoot(dirName, ns, items);
      if err.Some? { return; }
      var sorted := ListDirs(items, m0, ns);
      ghost var step1 := store.steps;
      err, dirs := MakeDirs(sorted, root, dirName, ns, m0, items);
      store.QuietSplit(old(store.steps), step1, store.steps);
      BuiltExtends(m0, root, store.files, store.nextId, dirName, ns, dirs, items);
      BuiltUses(m0, root, store.files, store.nextId, dirName, ns, dirs, items, 0, true);
    }
  }

  /** A submission, complete or not, uses no bytes. */
  lemma BuiltUses(m0: Files, first: Id, m: Files, next: Id, name: string, ns: string, dirs: Dirs, items: seq<Item>,
                  k: nat, quiet: bool)
    requires Built(m0, first, m, next, name, ns, dirs, items, k, quiet) && IdsBelow(m0, first)
    ensures UsedGrows(m0, m, ns, 0)
  {
    forall x | x in m0 ensures x in m && SameUse(m0[x], m[x]) {
      if i :| 0 <= i < k && items[i].id == x {
        assert ItemFiled(m0, m, dirs, items[i], quiet);
      } else {
        assert !DirTrees.Listed(items, k, x);
      }
    }
    forall x | x in m && x !in m0 ensures m[x].size == 0 {
      var p :| p in dirs && dirs[p] == x;
      assert DirMade(m, dirs, p, name, ns);
    }
    forall n ensures Used(m, n) == Used(m0, n) { OnlyEmptyAdded(m0, m, n); }
  }

  /** The rows of the directories made: each is called by the last name of its path and lies in
      the directory of the rest, the root under the submission's name at the top. */
  lemma BuiltDirs(m0: Files, first: Id, m: Files, next: Id, name: string, ns: string, dirs: Dirs, items: seq<Item>,
                  k: nat, quiet: bool, p: string)
    requires Built(m0, first, m, next, name, ns, dirs, items, k, quiet) && p in dirs
    ensures dirs[p] in m && DirDescribed(m[dirs[p]], ns)
    ensures if p == "" then m[dirs[p]].name == name && m[dirs[p]].path == "/" && m[dirs[p]].parent.None?
            else && LastName(p, m[dirs[p]].name) && m[dirs[p]].path == p
                 && Parent(p) in dirs && m[dirs[p]].parent == Some(dirs[Parent(p)])
  {
    assert DirMade(m, dirs, p, name, ns);
    BaseIsLastName(p);
  }

  ghost predicate DirDescribed(f: File, ns: string) {
    f.isDir && f.sha.None? && f.size == 0 && f.ns == ns && f.deletedAt.None?
  }

  /** What placing one item does: its row may be filed, and the content it names moved. */
  ghost predicate ItemPlaced(id: Id, d: Id, path: string, dest: Path, quiet: bool, s: Option<Sha>, p: Progress,
                             t: Tables, disk: Disk, t': Tables, disk': Disk) {
    && (t'.files == t.files || (id in Live(t.files) && t'.files == t.files[id := Filed(t.files[id], d, path)]))
    && (if s.None? then t'.blobs == t.blobs && disk' == disk && p.Untouched?
        else && id in Live(t.files) && t.files[id].sha == s
             && t'.blobs == BlobsAfter(t.blobs, s.value, dest, p) && disk' == DiskAfter(t.blobs, disk, s.value, dest, p)
             && (!p.Untouched? ==> s.value in t.blobs && t.blobs[s.value].path != dest
                                   && t.blobs[s.value].path in disk))
    && (quiet ==> p.Untouched? || p.Moved?)
    && (quiet && id in Live(t.files) ==> s == t.files[id].sha && t'.files == t.files[id := Filed(t.files[id], d, path)])
    && (quiet && s.Some? && s.value in t.blobs && t.blobs[s.value].path in disk ==> t'.blobs[s.value].path == dest)
  }

  lemma TurnFiled(m0: Files, root: Id, t: Tables, next: Id, name: string, ns: string, dirs: Dirs, items: seq<Item>,
                  i: nat,
                  quiet: bool, q: bool, s: Option<Sha>, p: Progress, safe: string -> string, disk: Disk, t': Tables,
                  disk': Disk)
    requires Built(m0, root, t.files, next, name, ns, dirs, items, i, quiet) && i < |items| && IdsBelow(m0, root)
    requires ItemOk(m0, items[i], ns) && (forall j | 0 <= j < i :: items[j].id != items[i].id)
    requires var d := FolderOf(dirs, items[i].path); d in Live(t.files) && t.files[d].isDir && t.files[d].ns == ns
    requires items[i].id in t.files && t.files[items[i].id] == m0[items[i].id]
    requires ItemPlaced(items[i].id, FolderOf(dirs, items[i].path), items[i].path,
                        ReadablePath(ns, name, items[i].path, safe), q, s, p, t, disk, t', disk')
    ensures Built(m0, root, t'.files, next, name, ns, dirs, items, i + 1, quiet && q)
  {
    NextItemFiled(m0, root, t.files, next, name, ns, dirs, items, i, quiet, FolderOf(dirs, items[i].path), t'.files, q);
  }

  lemma TurnPlaced(m0: Files, b0: Blobs, d0: Disk, t: Tables, disk: Disk, keep: set<Sha>, items: seq<Item>, i: nat,
                   ns: string, name: string, safe: string -> string, d: Id, s: Option<Sha>, p: Progress,
                   quiet: bool, q: bool, hash: Bytes -> Sha, t': Tables, disk': Disk)
    requires i < |items| && PathsFollow(m0, b0, t.blobs, items, i, ns, name, safe)
    requires items[i].id in m0 && items[i].id in Live(t.files) && t.files[items[i].id] == m0[items[i].id]
    requires Placed(PathsClear(m0, b0, keep, items, ns, name, safe), quiet, keep, hash, m0, b0, d0, t.blobs,
                    disk, items, i, ns, name, safe)
    requires ItemPlaced(items[i].id, d, items[i].path, ReadablePath(ns, name, items[i].path, safe), q, s, p, t, disk,
                        t', disk')
    ensures PathsFollow(m0, b0, t'.blobs, items, i + 1, ns, name, safe)
    ensures Placed(PathsClear(m0, b0, keep, items, ns, name, safe), quiet && q, keep, hash,
                   m0, b0, d0, t'.blobs, disk', items, i + 1, ns, name, safe)
  {
    NextPlaced(m0, b0, d0, t.blobs, disk, keep, items, i, ns, name, safe, s, p, quiet, q, hash);
  }

  /** What is said to one item. */
  ghost function ItemAnswer(m: Files, e: Item, ns: string, clash: bool): Option<Error> {
    if !SafePath(e.path) || clash then Some(InvalidArgument)
    else if e.id !in m || !Active(m[e.id]) || m[e.id].isDir then Some(InvalidArgument)
    else if m[e.id].ns != ns then Some(Forbidden)
    else None
  }

  /** An earlier item has its path or its file. */
  ghost predicate Clashes(items: seq<Item>, k: nat)
    requires k < |items|
  {
    exists j :: 0 <= j < k && (items[j].path == items[k].path || items[j].id == items[k].id)
  }

  /** What is said of the first so many items: what is said to the first one refused. */
  ghost function FirstAnswer(m: Files, items: seq<Item>, k: nat, ns: string): Option<Error>
    requires k <= |items|
  {
    if k == 0 then None
    else
      var before := FirstAnswer(m, items, k - 1, ns);
      if before.Some? then before else ItemAnswer(m, items[k - 1], ns, Clashes(items, k - 1))
  }

  lemma {:induction false} FirstStays(m: Files, items: seq<Item>, i: nat, k: nat, ns: string)
    requires i <= k <= |items| && FirstAnswer(m, items, i, ns).Some?
    ensures FirstAnswer(m, items, k, ns) == FirstAnswer(m, items, i, ns)
    decreases k - i
  {
    if i < k { FirstStays(m, items, i, k - 1, ns); }
  }

  /** Nothing is said exactly when all of them are acceptable beside each other. */
  lemma {:induction false} NoneRefused(m: Files, items: seq<Item>, k: nat, ns: string)
    requires k <= |items|
    ensures FirstAnswer(m, items, k, ns).None? <==>
            && (forall j | 0 <= j < k :: ItemOk(m, items[j], ns))
            && (forall i, j | 0 <= i < j < k :: items[i].path != items[j].path && items[i].id != items[j].id)
  {
    if k > 0 { NoneRefused(m, items, k - 1, ns); }
  }

  ghost function ManifestAnswer(m: Files, items: seq<Item>, ns: string): Option<Error> {
    if |items| > MAX_DIR_ENTRIES then Some(InvalidArgument) else FirstAnswer(m, items, |items|, ns)
  }

  /** An item no earlier one clashes with. */
  ghost predicate NewItem(m: Files, e: Item, ns: string, seenPaths: set<string>, seenFiles: set<Id>) {
    ItemOk(m, e, ns) && e.path !in seenPaths && e.id !in seenFiles
  }

  ghost predicate Checked(m: Files, items: seq<Item>, k: nat, ns: string, seenPaths: set<string>, seenFiles: set<Id>)
    requires k <= |items|
  {
    && (forall p :: p in seenPaths <==> PathAmong(items, k, p))
    && (forall x :: x in seenFiles <==> DirTrees.Listed(items, k, x))
    && (forall j | 0 <= j < k :: ItemOk(m, items[j], ns))
    && (forall i, j | 0 <= i < j < k :: items[i].path != items[j].path && items[i].id != items[j].id)
  }

  ghost predicate PathAmong(items: seq<Item>, k: nat, p: string)
    requires k <= |items|
  {
    exists j :: 0 <= j < k && items[j].path == p
  }

  lemma NextChecked(m: Files, items: seq<Item>, k: nat, ns: string, seenPaths: set<string>, seenFiles: set<Id>)
    requires k < |items| && Checked(m, items, k, ns, seenPaths, seenFiles)
    ensures NewItem(m, items[k], ns, seenPaths, seenFiles) ==>
              Checked(m, items, k + 1, ns, seenPaths + {items[k].path}, seenFiles + {items[k].id})
  {
  }

  /** The first directories made, and the root. */
  function FirstPaths(sorted: seq<string>, i: nat): set<string>
    requires i <= |sorted|
  {
    (set p | p in sorted[..i]) + {""}
  }

  lemma PathsSnoc(items: seq<Item>, i: nat)
    requires i < |items|
    ensures DirPaths(items[..i + 1]) == DirPaths(items[..i]) + Prefixes(items[i].path)
  {
  }

  lemma NextFree(m0: Files, first: Id, m: Files, next: Id, name: string, ns: string, dirs: Dirs, items: seq<Item>)
    requires Built(m0, first, m, next, name, ns, dirs, items, 0, true)
    ensures next !in m
  {
  }

  /** Making a directory whose parent has been made, or failing to. */
  lemma AddDir(m0: Files, first: Id, m: Files, next: Id, name: string, ns: string, dirs: Dirs, items: seq<Item>,
               p: string, d: Id, done: bool, m': Files, dirs': Dirs)
    requires Built(m0, first, m, next, name, ns, dirs, items, 0, true) && IdsBelow(m0, first)
    requires p != "" && p !in dirs && Parent(p) in dirs && d == FolderOf(dirs, p)
    requires m' == if done then m[next := DirRow(Base(p), p, ns, Some(d))] else m
    requires dirs' == if done then dirs[p := next] else dirs
    ensures Built(m0, first, m', next + 1, name, ns, dirs', items, 0, true)
    ensures dirs'.Keys == if done then dirs.Keys + {p} else dirs.Keys
  {
    if done {
      FolderMade(first, m, next, name, ns, dirs, p);
      DirsGrow(first, m, next, name, ns, dirs, p, d, m', dirs');
      NextDirMade(m0, first, m, next, name, ns, dirs, items, p, d, DirRow(Base(p), p, ns, Some(d)), m', dirs', true);
    }
  }

  /** No directory comes twice, and none before its parent. */
  ghost predicate ParentsFirst(sorted: seq<string>) {
    forall i | 0 <= i < |sorted| :: NewPath(sorted[i], FirstPaths(sorted, i))
  }

  ghost predicate NewPath(p: string, made: set<string>) {
    p != "" && p !in made && Parent(p) in made
  }

  lemma NextPath(sorted: seq<string>, i: nat)
    requires ParentsFirst(sorted) && i < |sorted|
    ensures NewPath(sorted[i], FirstPaths(sorted, i))
    ensures FirstPaths(sorted, i + 1) == FirstPaths(sorted, i) + {sorted[i]}
  {
  }

  /** Sorting by path puts parents first. */
  lemma SortedParentsFirst(items: seq<Item>, sorted: seq<string>)
    requires Distinct(sorted) && Sorted(sorted, Leq) && (forall p :: p in sorted <==> p in DirPaths(items))
    requires forall j | 0 <= j < |items| :: SafePath(items[j].path)
    ensures ParentsFirst(sorted) && FirstPaths(sorted, |sorted|) == DirPaths(items) + {""}
  {
    assert sorted[..|sorted|] == sorted;
    forall i | 0 <= i < |sorted| ensures NewPath(sorted[i], FirstPaths(sorted, i)) {
      var p := sorted[i];
      assert p in sorted;
      ParentFirst(items, p);
      if Parent(p) != "" {
        assert Parent(p) in sorted;
        var j :| 0 <= j < |sorted| && sorted[j] == Parent(p);
        assert !(i <= j);
        assert sorted[..i][j] == sorted[j];
      }
    }
  }

  lemma ItemsSafe(m: Files, items: seq<Item>, ns: string)
    requires DirTrees.Valid(m, items, ns)
    ensures forall i | 0 <= i < |items| :: SafePath(items[i].path)
  {
  }

  lemma BuiltExtends(m0: Files, first: Id, m: Files, next: Id, name: string, ns: string, dirs: Dirs, items: seq<Item>)
    requires Built(m0, first, m, next, name, ns, dirs, items, 0, true)
    ensures Extended(m0, first, m) && Sound(m, next)
  {
  }

  lemma NotYetFiled(m0: Files, first: Id, m: Files, next: Id, name: string, ns: string, dirs: Dirs, items: seq<Item>,
                    k: nat, quiet: bool)
    requires Built(m0, first, m, next, name, ns, dirs, items, k, quiet) && k < |items|
    requires DirTrees.Valid(m0, items, ns) && dirs.Keys == DirPaths(items) + {""}
    ensures ItemOk(m0, items[k], ns) && (forall i | 0 <= i < k :: items[i].id != items[k].id)
    ensures items[k].id in m && m[items[k].id] == m0[items[k].id]
    ensures var d := FolderOf(dirs, items[k].path); d in Live(m) && m[d].isDir && m[d].ns == ns
  {
    assert ItemOk(m0, items[k], ns) && !DirTrees.Listed(items, k, items[k].id);
    ItemParent(items, k);
    FolderMade(first, m, next, name, ns, dirs, items[k].path);
  }

  lemma NextPlaced(m: Files, b0: Blobs, d0: Disk, b: Blobs, disk: Disk, keep: set<Sha>, items: seq<Item>, k: nat,
                   ns: string, name: string, safe: string -> string, s: Option<Sha>, p: Progress, quiet: bool, q: bool,
                   hash: Bytes -> Sha)
    requires k < |items| && PathsFollow(m, b0, b, items, k, ns, name, safe) && items[k].id in m
    requires Placed(PathsClear(m, b0, keep, items, ns, name, safe), quiet, keep, hash, m, b0, d0, b, disk, items,
                    k, ns, name, safe)
    requires s.Some? ==> m[items[k].id].sha == s
    requires s.Some? && !p.Untouched? ==>
               s.value in b && b[s.value].path in disk && b[s.value].path != ReadablePath(ns, name, items[k].path, safe)
    requires q ==> s == m[items[k].id].sha && (p.Untouched? || p.Moved?)
    requires var dest := ReadablePath(ns, name, items[k].path, safe);
             q && s.Some? && s.value in b && b[s.value].path in disk ==>
             BlobsAfter(b, s.value, dest, p)[s.value].path == dest
    ensures var dest := ReadablePath(ns, name, items[k].path, safe);
            var b' := if s.None? then b else BlobsAfter(b, s.value, dest, p);
            var d' := if s.None? then disk else DiskAfter(b, disk, s.value, dest, p);
            && PathsFollow(m, b0, b', items, k + 1, ns, name, safe)
            && Placed(PathsClear(m, b0, keep, items, ns, name, safe), quiet && q, keep, hash,
                      m, b0, d0, b', d', items, k + 1, ns, name, safe)
  {
    var clear := PathsClear(m, b0, keep, items, ns, name, safe) && AllHold(keep, b0, d0, hash);
    if clear && quiet && q { NextDelivered(m, b, items, k, ns, name, safe, p); }
    if s.None? {
      FollowMore(m, b0, b, items, k, ns, name, safe);
    } else {
      NextFollows(m, b0, b, items, k, ns, name, safe, s.value, p);
      if clear { NextAtHand(m, b0, b, disk, keep, items, k, ns, name, safe, s.value, p, hash); }
      if clear && quiet && q {
        NextHeld(m, b0, b, disk, keep, items, k, ns, name, safe, s.value, p, hash);
      }
    }
  }
}
