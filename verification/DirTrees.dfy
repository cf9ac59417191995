/** Building a directory tree from a manifest (internal/domain/upload.go:634-805). */
module DirTrees {
  import opened Types
  import opened Forest
  import opened Tree
  import opened Sorting
  import opened Paths
  import opened Moves
  import opened Walks

  const MAX_DIR_ENTRIES := 10000

  /** A manifest entry: an uploaded file and its place in the tree. */
  datatype Item = Item(path: string, id: Id)

  /** A piece between two slashes, or between one and an end of the path. */
  predicate Segment(p: string, i: nat, j: nat)
    requires i <= j <= |p|
  {
    (i == 0 || p[i - 1] == '/') && (j == |p| || p[j] == '/') && '/' !in p[i..j]
  }

  /** Every segment is a real name. */
  predicate RealSegments(p: string) {
    forall i, j | 0 <= i <= j <= |p| && Segment(p, i, j) :: p[i..j] !in {"", ".", ".."}
  }

  /** isSafeRelativePath. */
  predicate SafePath(p: string) {
    p != "" && '\\' !in p && '\0' !in p && p[0] != '/' && RealSegments(p)
  }

  /** safeStorageRelativePath: every segment through the storage-name filter. */
  function SafeRelative(p: string, safe: string -> string): string
    decreases |p|
  {
    var i := LastSlash(p);
    if i < 0 then safe(p) else SafeRelative(p[..i], safe) + "/" + safe(p[i + 1..])
  }

  /** An active file of the namespace. */
  ghost predicate ActiveFile(m: Files, id: Id, ns: string) {
    id in Live(m) && !m[id].isDir && m[id].ns == ns
  }

  ghost predicate ItemOk(m: Files, e: Item, ns: string) { SafePath(e.path) && ActiveFile(m, e.id, ns) }

  /** The manifests SubmitDir accepts. */
  ghost predicate Valid(m: Files, items: seq<Item>, ns: string) {
    && |items| <= MAX_DIR_ENTRIES
    && (forall i | 0 <= i < |items| :: ItemOk(m, items[i], ns))
    && (forall i, j | 0 <= i < j < |items| :: items[i].path != items[j].path && items[i].id != items[j].id)
  }

  /** The directories a path runs through. */
  function Prefixes(p: string): set<string> {
    set i | 0 <= i < |p| && p[i] == '/' :: p[..i]
  }

  function DirPaths(items: seq<Item>): set<string> {
    set i, j | 0 <= i < |items| && 0 <= j < |items[i].path| && items[i].path[j] == '/' :: items[i].path[..j]
  }

  /** The parent of a needed directory is needed too, or is the root, and sorts first. */
  lemma ParentFirst(items: seq<Item>, p: string)
    requires p in DirPaths(items) && forall i | 0 <= i < |items| :: SafePath(items[i].path)
    ensures p != "" && Parent(p) != p && !Leq(p, Parent(p))
    ensures Parent(p) == "" || Parent(p) in DirPaths(items)
  {
    var i, j :| 0 <= i < |items| && 0 <= j < |items[i].path| && items[i].path[j] == '/' && p == items[i].path[..j];
    assert j > 0;
    var k := LastSlash(p);
    assert Parent(p) < p;
    PrefixFirst(Parent(p), p);
    if k >= 0 {
      assert items[i].path[k] == '/' && items[i].path[..k] == p[..k];
    }
  }

  lemma ItemParent(items: seq<Item>, i: nat)
    requires i < |items|
    ensures Parent(items[i].path) == "" || Parent(items[i].path) in DirPaths(items)
  {
  }

  function DirRow(name: string, path: string, ns: string, parent: Option<Id>): File {
    File(None, name, path, 0, ns, true, parent, None)
  }

  type Dirs = map<string, Id>

  /** The row of each directory made so far. */
  ghost predicate DirMade(m: Files, dirs: Dirs, p: string, name: string, ns: string)
    requires p in dirs && "" in dirs
  {
    && dirs[p] in m
    && if p == "" then m[dirs[p]] == DirRow(name, "/", ns, None)
       else Parent(p) in dirs && m[dirs[p]] == DirRow(Base(p), p, ns, Some(dirs[Parent(p)]))
  }

  /** The directories so far, each made once, with identifiers from `first` on. */
  ghost predicate DirsMade(first: Id, m: Files, next: Id, name: string, ns: string, dirs: Dirs) {
    && "" in dirs && dirs[""] == first
    && (forall p | p in dirs :: first <= dirs[p] < next)
    && (forall p {:trigger DirMade(m, dirs, p, name, ns)} | p in dirs :: DirMade(m, dirs, p, name, ns))
    && (forall p, q | p in dirs && q in dirs && p != q :: dirs[p] != dirs[q])
  }

  lemma DirsGrow(first: Id, m: Files, next: Id, name: string, ns: string, dirs: Dirs, p: string, d: Id, m': Files,
                 dirs': Dirs)
    requires DirsMade(first, m, next, name, ns, dirs) && p != "" && p !in dirs && Parent(p) in dirs
    requires d == dirs[Parent(p)]
    requires next !in m && m' == m[next := DirRow(Base(p), p, ns, Some(d))] && dirs' == dirs[p := next]
    ensures DirsMade(first, m', next + 1, name, ns, dirs')
  {
    DirsStillMade(m, dirs, name, ns, m', dirs');
    NewDirMade(m', dirs', p, d, name, ns);
    IdsGrow(first, next, dirs, p, dirs');
    assert dirs'.Keys == dirs.Keys + {p};
  }

  lemma DirsStillMade(m: Files, dirs: Dirs, name: string, ns: string, m': Files, dirs': Dirs)
    requires "" in dirs
    requires forall q {:trigger DirMade(m, dirs, q, name, ns)} | q in dirs :: DirMade(m, dirs, q, name, ns)
    requires (forall x | x in m :: x in m' && m'[x] == m[x])
    requires (forall r | r in dirs :: r in dirs' && dirs'[r] == dirs[r])
    ensures forall q {:trigger DirMade(m', dirs', q, name, ns)} | q in dirs :: DirMade(m', dirs', q, name, ns)
  {
    forall q | q in dirs ensures DirMade(m', dirs', q, name, ns) { assert DirMade(m, dirs, q, name, ns); }
  }

  lemma NewDirMade(m: Files, dirs: Dirs, p: string, d: Id, name: string, ns: string)
    requires p != "" && "" in dirs && p in dirs && Parent(p) in dirs && dirs[Parent(p)] == d
    requires dirs[p] in m && m[dirs[p]] == DirRow(Base(p), p, ns, Some(d))
    ensures DirMade(m, dirs, p, name, ns)
  {
  }

  lemma IdsGrow(first: Id, next: Id, dirs: Dirs, p: string, dirs': Dirs)
    requires (forall q | q in dirs :: first <= dirs[q] < next) && first <= next && dirs' == dirs[p := next]
    requires forall q, r | q in dirs && r in dirs && q != r :: dirs[q] != dirs[r]
    ensures forall q | q in dirs' :: first <= dirs'[q] < next + 1
    ensures forall q, r | q in dirs' && r in dirs' && q != r :: dirs'[q] != dirs'[r]
  {
  }

  lemma DirsStay(first: Id, m: Files, next: Id, name: string, ns: string, dirs: Dirs, x: Id, m': Files)
    requires DirsMade(first, m, next, name, ns, dirs) && x < first
    requires m'.Keys == m.Keys && forall y | y in m && y != x :: m'[y] == m[y]
    ensures DirsMade(first, m', next, name, ns, dirs)
  {
    forall p | p in dirs ensures DirMade(m', dirs, p, name, ns) { assert DirMade(m, dirs, p, name, ns); }
  }

  /** The directory an item is filed under, the root if there is none. */
  function FolderOf(dirs: Dirs, path: string): Id
    requires "" in dirs
  {
    if Parent(path) in dirs then dirs[Parent(path)] else dirs[""]
  }

  function Filed(f: File, d: Id, path: string): File { f.(parent := Some(d), path := path) }

  /** One of the first `k` items is about this row. */
  ghost predicate Listed(items: seq<Item>, k: nat, x: Id)
    requires k <= |items|
  {
    exists i :: 0 <= i < k && items[i].id == x
  }

  /** The table `m` is `m0` with the directories `dirs`, numbered from `first` on, and the
      first `k` items filed under them; with a failing store some may have been skipped. */
  ghost predicate Built(m0: Files, first: Id, m: Files, next: Id, name: string, ns: string,
                        dirs: Dirs, items: seq<Item>, k: nat, quiet: bool) {
    && k <= |items| && Sound(m, next) && DirsMade(first, m, next, name, ns, dirs)
    && m.Keys == m0.Keys + dirs.Values
    && (forall x | x in m0 && !Listed(items, k, x) :: m[x] == m0[x])
    && (forall i | 0 <= i < k :: ItemFiled(m0, m, dirs, items[i], quiet))
  }

  ghost predicate ItemFiled(m0: Files, m: Files, dirs: Dirs, e: Item, quiet: bool)
    requires "" in dirs
  {
    e.id in m0 && e.id in m
    && (m[e.id] == Filed(m0[e.id], FolderOf(dirs, e.path), e.path) || (!quiet && m[e.id] == m0[e.id]))
  }

  lemma RootMade(m0: Files, first: Id, name: string, ns: string, items: seq<Item>, quiet: bool)
    requires Sound(m0, first)
    ensures Built(m0, first, m0[first := DirRow(name, "/", ns, None)], first + 1, name, ns, map["" := first], items, 0,
                  quiet)
  {
    AddSound(m0, first, DirRow(name, "/", ns, None));
  }

  lemma NextDirMade(m0: Files, first: Id, m: Files, next: Id, name: string, ns: string, dirs: Dirs, items: seq<Item>,
                    p: string, d: Id, f: File, m': Files, dirs': Dirs, quiet: bool)
    requires Built(m0, first, m, next, name, ns, dirs, items, 0, quiet) && IdsBelow(m0, first)
    requires p !in dirs && d in Live(m) && m[d].isDir && m[d].ns == ns
    requires f.parent == Some(d) && Active(f) && f.isDir && f.sha.None? && f.ns == ns
    requires m' == m[next := f] && dirs' == dirs[p := next]
    requires DirsMade(first, m', next + 1, name, ns, dirs')
    ensures Built(m0, first, m', next + 1, name, ns, dirs', items, 0, quiet)
  {
    AddSound(m, next, f);
    ValuesGrow(dirs, p, next);
  }

  lemma ValuesGrow(dirs: Dirs, p: string, x: Id)
    requires p !in dirs
    ensures dirs[p := x].Values == dirs.Values + {x}
  {
    var dirs': Dirs := dirs[p := x];
    assert p in dirs' && x in dirs'.Values;
    forall y | y in dirs.Values ensures y in dirs'.Values {
      var q :| q in dirs && dirs[q] == y;
      assert q in dirs' && dirs'[q] == y;
    }
  }

  /** Filing a file under a directory of its namespace. */
  lemma FiledSound(m: Files, next: Id, x: Id, d: Id, path: string)
    requires Sound(m, next) && x in Live(m) && !m[x].isDir
    requires d in Live(m) && m[d].isDir && m[d].ns == m[x].ns
    ensures Sound(m[x := Filed(m[x], d, path)], next)
  {
    FileSubtree(m, m, x);
    assert Under(m, x, d) <==> d in Subtree(m, x);
    MovedSound(m, next, x, Some(d));
    var moved: Files := m[x := m[x].(parent := Some(d))];
    RenamedSound(moved, next, x, m[x].name, path);
    assert moved[x := moved[x].(name := m[x].name, path := path)] == m[x := Filed(m[x], d, path)];
  }

  /** The directory of an item is there, so the fallback to the root is not taken. */
  lemma FolderMade(first: Id, m: Files, next: Id, name: string, ns: string, dirs: Dirs, path: string)
    requires DirsMade(first, m, next, name, ns, dirs) && Parent(path) in dirs
    ensures var d := FolderOf(dirs, path);
            d == dirs[Parent(path)] && first <= d < next && d in Live(m) && m[d].isDir && m[d].ns == ns
  {
    assert DirMade(m, dirs, Parent(path), name, ns);
  }

  /** The items filed so far and the next one. */
  lemma NextFiled(m0: Files, m: Files, dirs: Dirs, items: seq<Item>, k: nat, quiet: bool, d: Id, m': Files, q: bool)
    requires k < |items| && "" in dirs && (forall i | 0 <= i < k :: ItemFiled(m0, m, dirs, items[i], quiet))
    requires d == FolderOf(dirs, items[k].path)
    requires forall i | 0 <= i < k :: items[i].id != items[k].id
    requires items[k].id in m0 && items[k].id in m && m[items[k].id] == m0[items[k].id]
    requires m' == m[items[k].id := Filed(m[items[k].id], d, items[k].path)] || (!q && m' == m)
    ensures forall i | 0 <= i < k + 1 :: ItemFiled(m0, m', dirs, items[i], quiet && q)
  {
  }

  /** Filing one item. */
  lemma NextItemFiled(m0: Files, first: Id, m: Files, next: Id, name: string, ns: string, dirs: Dirs, items: seq<Item>,
                      k: nat, quiet: bool, d: Id, m': Files, q: bool)
    requires Built(m0, first, m, next, name, ns, dirs, items, k, quiet) && k < |items|
    requires IdsBelow(m0, first) && ActiveFile(m0, items[k].id, ns)
    requires forall i | 0 <= i < k :: items[i].id != items[k].id
    requires d == FolderOf(dirs, items[k].path) && d in Live(m) && m[d].isDir && m[d].ns == ns
    requires m' == m || (items[k].id in m && m' == m[items[k].id := Filed(m[items[k].id], d, items[k].path)])
    requires q ==> items[k].id in m && m' == m[items[k].id := Filed(m[items[k].id], d, items[k].path)]
    ensures items[k].id in m && m[items[k].id] == m0[items[k].id]
    ensures Built(m0, first, m', next, name, ns, dirs, items, k + 1, quiet && q)
  {
    var e := items[k];
    assert !Listed(items, k, e.id);
    FiledSound(m, next, e.id, d, e.path);
    DirsStay(first, m, next, name, ns, dirs, e.id, m');
    NextFiled(m0, m, dirs, items, k, quiet, d, m', q);
    OthersStay(m0, m, items, k, m');
  }

  lemma OthersStay(m0: Files, m: Files, items: seq<Item>, k: nat, m': Files)
    requires k < |items| && m0.Keys <= m.Keys == m'.Keys
    requires forall x | x in m0 && !Listed(items, k, x) :: m[x] == m0[x]
    requires forall x | x in m && x != items[k].id :: m'[x] == m[x]
    ensures forall x | x in m0 && !Listed(items, k + 1, x) :: m'[x] == m0[x]
  {
  }

  /** Every directory made is below the new root. */
  lemma {:induction false} DirUnder(first: Id, m: Files, next: Id, name: string, ns: string, dirs: Dirs, p: string)
    requires DirsMade(first, m, next, name, ns, dirs) && p in dirs
    ensures Under(Live(m), first, dirs[p])
    decreases |p|
  {
    assert DirMade(m, dirs, p, name, ns);
    UnderStep(Live(m), first, dirs[p]);
    if p != "" { DirUnder(first, m, next, name, ns, dirs, Parent(p)); }
  }

  /** A submission that met no failure: what SubmitDir ensures. */
  ghost predicate Submitted(m0: Files, first: Id, m: Files, next: Id, name: string, ns: string, dirs: Dirs,
                            items: seq<Item>) {
    && Built(m0, first, m, next, name, ns, dirs, items, |items|, true)
    && IdsBelow(m0, first) && Valid(m0, items, ns) && dirs.Keys == DirPaths(items) + {""}
  }

  lemma ItemRow(m0: Files, first: Id, m: Files, next: Id, name: string, ns: string, dirs: Dirs, items: seq<Item>,
                i: nat)
    requires Submitted(m0, first, m, next, name, ns, dirs, items) && i < |items|
    ensures items[i].id in m0 && items[i].id in Live(m) && !m[items[i].id].isDir
    ensures Parent(items[i].path) in dirs
    ensures m[items[i].id] == Filed(m0[items[i].id], dirs[Parent(items[i].path)], items[i].path)
  {
  }

  /** Nothing else is: in a table of old rows, new ones and changed ones that are files, only the
      last two hang below a new row. */
  lemma {:induction false} OnlyNew(m0: Files, first: Id, m: Files, made: set<Id>, changed: set<Id>, x: Id, n: nat)
    requires WellFormed(m) && IdsBelow(m0, first) && m.Keys == m0.Keys + made
    requires forall y | y in m0 && y !in changed :: m[y] == m0[y]
    requires forall y | y in changed :: y in m && !m[y].isDir
    requires Up(Live(m), x, n) == Some(first) && first in made && forall y | y in made :: y >= first
    ensures x in made || x in changed
    decreases n
  {
    if n > 0 {
      var p := m[x].parent.value;
      UpTop(Live(m), p, n - 1, first);
      OnlyNew(m0, first, m, made, changed, p, n - 1);
      assert Edge(m, x, p);
      assert p >= first;
    }
  }

  ghost function ListedIds(items: seq<Item>): set<Id> { set i | 0 <= i < |items| :: items[i].id }

  /** What a submission has left, said of identifiers. */
  lemma SubmittedRows(m0: Files, first: Id, m: Files, next: Id, name: string, ns: string, dirs: Dirs, items: seq<Item>)
    requires Submitted(m0, first, m, next, name, ns, dirs, items)
    ensures WellFormed(m) && IdsBelow(m0, first) && m.Keys == m0.Keys + dirs.Values
    ensures forall y | y in m0 && y !in ListedIds(items) :: m[y] == m0[y]
    ensures forall y | y in ListedIds(items) :: y in m && !m[y].isDir
    ensures first in dirs.Values && forall y | y in dirs.Values :: y >= first && y in m && m[y].isDir
    ensures forall x :: Listed(items, |items|, x) <==> x in ListedIds(items)
  {
    assert dirs[""] in dirs.Values;
    forall y | y in m0 && y !in ListedIds(items) ensures m[y] == m0[y] { assert !Listed(items, |items|, y); }
    forall p | p in dirs ensures dirs[p] >= first && dirs[p] in m && m[dirs[p]].isDir {
      assert DirMade(m, dirs, p, name, ns);
    }
  }

  lemma ItemBelow(m0: Files, first: Id, m: Files, next: Id, name: string, ns: string, dirs: Dirs, items: seq<Item>,
                  i: nat)
    requires Submitted(m0, first, m, next, name, ns, dirs, items) && i < |items|
    ensures items[i].id in FilesBelow(Live(m), first)
  {
    ItemRow(m0, first, m, next, name, ns, dirs, items, i);
    DirUnder(first, m, next, name, ns, dirs, Parent(items[i].path));
    UnderStep(Live(m), first, items[i].id);
  }

  /** Every item is found below the root under the path it was submitted with. */
  lemma ItemShown(m0: Files, first: Id, m: Files, next: Id, name: string, ns: string, dirs: Dirs, items: seq<Item>,
                  i: nat, e: Entry)
    requires Submitted(m0, first, m, next, name, ns, dirs, items) && i < |items|
    requires Shows(Live(m), first, e) && e.id == items[i].id
    ensures e == Entry(items[i].path, m0[items[i].id].size, m0[items[i].id].sha, items[i].id)
  {
    ItemRow(m0, first, m, next, name, ns, dirs, items, i);
    assert ItemOk(m0, items[i], ns);
    var n := Depth(Live(m), first, e.id);
    assert Up(Live(m), e.id, n) == Some(first);
    assert n > 0;
  }

  lemma BuiltFiles(m0: Files, first: Id, m: Files, next: Id, name: string, ns: string, dirs: Dirs, items: seq<Item>,
                   x: Id)
    requires Submitted(m0, first, m, next, name, ns, dirs, items)
    ensures x in FilesBelow(Live(m), first) <==> Listed(items, |items|, x)
  {
    SubmittedRows(m0, first, m, next, name, ns, dirs, items);
    if x in FilesBelow(Live(m), first) {
      var n: nat :| Up(Live(m), x, n) == Some(first);
      OnlyNew(m0, first, m, dirs.Values, ListedIds(items), x, n);
    }
    if i :| 0 <= i < |items| && items[i].id == x { ItemBelow(m0, first, m, next, name, ns, dirs, items, i); }
  }

  /** The manifest read back is the manifest submitted, in path order: each item once, under
      its path, with the size and hash its file has always had. */
  lemma RoundTrip(m0: Files, first: Id, m: Files, next: Id, name: string, ns: string, dirs: Dirs, items: seq<Item>,
                  w: Manifest)
    requires Submitted(m0, first, m, next, name, ns, dirs, items) && IsManifest(Live(m), first, w)
    ensures w.name == name && |w.entries| == |items|
    ensures forall i | 0 <= i < |items| ::
              Entry(items[i].path, m0[items[i].id].size, m0[items[i].id].sha, items[i].id) in w.entries
    ensures forall i, j | 0 <= i < j < |w.entries| :: !Leq(w.entries[j].path, w.entries[i].path)
  {
    assert DirMade(m, dirs, "", name, ns);
    forall i | 0 <= i < |items|
      ensures Entry(items[i].path, m0[items[i].id].size, m0[items[i].id].sha, items[i].id) in w.entries
    {
      ItemBelow(m0, first, m, next, name, ns, dirs, items, i);
      var j :| 0 <= j < |w.entries| && w.entries[j].id == items[i].id;
      ItemShown(m0, first, m, next, name, ns, dirs, items, i, w.entries[j]);
    }
    forall x ensures x in FilesBelow(Live(m), first) <==> Listed(items, |items|, x) {
      BuiltFiles(m0, first, m, next, name, ns, dirs, items, x);
    }
    EntriesCount(Live(m), first, FilesBelow(Live(m), first), items, w.entries);
    forall i, j | 0 <= i < j < |w.entries| ensures !Leq(w.entries[j].path, w.entries[i].path) {
      PathsDiffer(m0, first, m, next, name, ns, dirs, items, w.entries[i], w.entries[j]);
      assert PathLeq(w.entries[i], w.entries[j]);
      if Leq(w.entries[j].path, w.entries[i].path) { LeqAntisymmetric(w.entries[i].path, w.entries[j].path); }
    }
  }

  lemma EntriesCount(m: Files, root: Id, ids: set<Id>, items: seq<Item>, entries: seq<Entry>)
    requires Enumerates(m, root, ids, entries) && forall x :: x in ids <==> Listed(items, |items|, x)
    requires forall i, j | 0 <= i < j < |items| :: items[i].id != items[j].id
    ensures |entries| == |items|
  {
    var wanted := seq(|items|, i requires 0 <= i < |items| => items[i].id);
    var shown := seq(|entries|, j requires 0 <= j < |entries| => entries[j].id);
    forall x ensures x in wanted <==> x in shown {
      if i :| 0 <= i < |items| && items[i].id == x {
        assert x == wanted[i] && Listed(items, |items|, x);
        var j :| 0 <= j < |entries| && entries[j].id == x;
        assert shown[j] == x;
      }
      if j :| 0 <= j < |shown| && shown[j] == x {
        assert entries[j].id == x;
        var i :| 0 <= i < |items| && items[i].id == x;
        assert wanted[i] == x;
      }
    }
    SameLength(wanted, shown);
  }

  /** Each entry shows an item, under the item's path. */
  lemma EntryItem(m0: Files, first: Id, m: Files, next: Id, name: string, ns: string, dirs: Dirs, items: seq<Item>,
                  e: Entry) returns (i: nat)
    requires Submitted(m0, first, m, next, name, ns, dirs, items)
    requires e.id in FilesBelow(Live(m), first) && Shows(Live(m), first, e)
    ensures i < |items| && items[i].id == e.id && items[i].path == e.path
  {
    BuiltFiles(m0, first, m, next, name, ns, dirs, items, e.id);
    i :| 0 <= i < |items| && items[i].id == e.id;
    ItemShown(m0, first, m, next, name, ns, dirs, items, i, e);
  }

  lemma ItemsDiffer(m: Files, items: seq<Item>, ns: string, i: nat, j: nat)
    requires Valid(m, items, ns) && i < |items| && j < |items| && i != j
    ensures items[i].path != items[j].path
  {
    if i > j { ItemsDiffer(m, items, ns, j, i); }
  }

  lemma PathsDiffer(m0: Files, first: Id, m: Files, next: Id, name: string, ns: string, dirs: Dirs, items: seq<Item>,
                    a: Entry, b: Entry)
    requires Submitted(m0, first, m, next, name, ns, dirs, items)
    requires a.id in FilesBelow(Live(m), first) && b.id in FilesBelow(Live(m), first) && a.id != b.id
    requires Shows(Live(m), first, a) && Shows(Live(m), first, b)
    ensures a.path != b.path
  {
    var i := EntryItem(m0, first, m, next, name, ns, dirs, items, a);
    var j := EntryItem(m0, first, m, next, name, ns, dirs, items, b);
    ItemsDiffer(m0, items, ns, i, j);
  }

  lemma {:induction false} SameLength(xs: seq<Id>, ys: seq<Id>)
    requires Distinct(xs) && Distinct(ys) && forall x :: x in xs <==> x in ys
    ensures |xs| == |ys|
  {
    DistinctCounts(xs);
    DistinctCounts(ys);
    forall x ensures multiset(xs)[x] == multiset(ys)[x] {
      assert x in multiset(xs) <==> x in xs;
      assert x in multiset(ys) <==> x in ys;
    }
    assert multiset(xs) == multiset(ys);
    assert |multiset(xs)| == |xs| && |multiset(ys)| == |ys|;
  }
}
