/** Moving a node to another directory (internal/domain/upload.go:861-911). */
module Moves {
  import opened Types
  import opened Forest
  import opened Stores
  import opened Tree

  /** What MoveFile answers when nothing fails. */
  ghost function MoveAnswer(m: Files, id: Id, target: Option<Id>, ns: string): Option<Error> {
    if id !in Live(m) then Some(NotFound)
    else if m[id].ns != ns then Some(Forbidden)
    else match target
      case None => None
      case Some(t) =>
        if t == id then Some(InvalidArgument)
        else if t !in Live(m) then Some(NotFound)
        else if m[t].ns != ns then Some(Forbidden)
        else if !m[t].isDir || Under(Live(m), id, t) then Some(InvalidArgument)
        else None
  }

  /** An active row of the caller, and no target or another active directory of the caller that
      is not below it. */
  ghost predicate Movable(m: Files, id: Id, target: Option<Id>, ns: string) {
    && id in m && m[id].deletedAt.None? && m[id].ns == ns
    && (target.Some? ==>
          && target.value != id && target.value in m && m[target.value].deletedAt.None?
          && m[target.value].isDir && m[target.value].ns == ns && !Under(Live(m), id, target.value))
  }

  /** In a trash-closed table every ancestor of an active row is active, so the walk over
      active rows sees the whole chain. */
  lemma AncestorsLive(m: Files, r: Id, x: Id)
    requires TrashClosed(m) && x in Live(m)
    ensures Under(m, r, x) <==> Under(Live(m), r, x)
  {
    if Under(m, r, x) {
      var n: nat :| Up(m, x, n) == Some(r);
      ChainLive(m, r, x, n);
    }
    if Under(Live(m), r, x) { UnderMono(m, Live(m), r, x); }
  }

  lemma {:induction false} ChainLive(m: Files, r: Id, x: Id, n: nat)
    requires TrashClosed(m) && x in Live(m) && Up(m, x, n) == Some(r)
    ensures Under(Live(m), r, x)
    decreases n
  {
    UnderStep(Live(m), r, x);
    if n > 0 {
      var p := m[x].parent.value;
      UpTop(m, p, n - 1, r);
      assert Edge(m, x, p);
      ChainLive(m, r, p, n - 1);
    }
  }

  /** Moving `x` to the top or under a directory of its namespace that is not below it keeps
      a table well formed; below it, it cannot. */
  lemma MovedWellFormed(m: Files, x: Id, p: Id)
    requires WellFormed(m) && x in m && p in m && m[p].isDir && m[p].ns == m[x].ns
    ensures WellFormed(m[x := m[x].(parent := Some(p))]) <==> !Under(m, x, p)
  {
    var m' := m[x := m[x].(parent := Some(p))];
    forall y: Id, q: Id {:trigger Edge(m', y, q)} | Edge(m', y, q) ensures y == x || Edge(m, y, q) {}
    if Under(m, x, p) { CyclicMoved(m, x, p); } else { AcyclicMoved(m, x, p); }
  }

  lemma MovedSound(m: Files, next: Id, x: Id, p: Option<Id>)
    requires Sound(m, next) && x in Live(m)
    requires p.Some? ==> p.value in Live(m) && m[p.value].isDir && m[p.value].ns == m[x].ns && !Under(m, x, p.value)
    ensures Sound(m[x := m[x].(parent := p)], next)
  {
    var m' := m[x := m[x].(parent := p)];
    forall y: Id, q: Id {:trigger Edge(m', y, q)} | Edge(m', y, q) ensures (y == x && p == Some(q)) || Edge(m, y, q) {}
    if p.Some? {
      MovedWellFormed(m, x, p.value);
    } else {
      forall z | z in m' && m'[z].parent.Some? ensures !Under(m', z, m'[z].parent.value) {
        if Under(m', z, m'[z].parent.value) {
          var n: nat :| Up(m', m'[z].parent.value, n) == Some(z);
          UpDetached(m, x, m'[z].parent.value, n, z);
        }
      }
    }
  }

  lemma {:induction false} UpDetached(m: Files, x: Id, y: Id, n: nat, r: Id)
    requires x in m && Up(m[x := m[x].(parent := None)], y, n) == Some(r)
    ensures Under(m, r, y)
    decreases n
  {
    UnderStep(m, r, y);
    if n > 0 { UpDetached(m, x, m[x := m[x].(parent := None)][y].parent.value, n - 1, r); }
  }

  /** Neither name nor path carries structure. */
  lemma RenamedSound(m: Files, next: Id, x: Id, name: string, path: string)
    requires Sound(m, next) && x in m
    ensures Sound(m[x := m[x].(name := name, path := path)], next)
  {
    var m' := m[x := m[x].(name := name, path := path)];
    EdgesKept(m, m');
    AcyclicMono(m, m');
  }

  class Mover {
    const store: Store

    constructor (store: Store)
      ensures this.store == store
    {
      this.store := store;
    }

    /** Accepts exactly the moves MoveAnswer allows; the table stays sound, and an accepted
        move makes a cycle exactly when the target is below the node in the whole table. */
    method MoveFile(id: Id, target: Option<Id>, ns: string) returns (err: Option<Error>)
      requires WellFormed(store.files)
      modifies store`files, store`steps
      ensures store.Quiet(old(store.steps), store.steps) ==> err == MoveAnswer(old(store.files), id, target, ns)
      ensures err.None? ==> MoveAnswer(old(store.files), id, target, ns).None?
      ensures err.None? ==> Movable(old(store.files), id, target, ns)
      ensures store.Quiet(old(store.steps), store.steps) && Movable(old(store.files), id, target, ns) ==> err.None?
      ensures store.files == if err.None? then old(store.files)[id := old(store.files)[id].(parent := target)]
                             else old(store.files)
      ensures err.None? && target.Some? ==>
                (WellFormed(store.files) <==> !Under(old(store.files), id, target.value))
      ensures Sound(old(store.files), store.nextId) ==> Sound(store.files, store.nextId)
    {
      ghost var m := store.files;
      var file, dir;
      err, file := store.GetFile(id);
      if err.Some? { return; }
      if file.None? { return Some(NotFound); }
      if file.value.file.ns != ns { return Some(Forbidden); }
      if target.Some? {
        if target.value == id { return Some(InvalidArgument); }
        err, dir := store.GetFile(target.value);
        if err.Some? { return; }
        if dir.None? { return Some(NotFound); }
        if dir.value.file.ns != ns { return Some(Forbidden); }
        if !dir.value.file.isDir { return Some(InvalidArgument); }
        err := RefuseBelow(id, dir.value);
        if err.Some? { return; }
        MovedWellFormed(m, id, target.value);
      }
      err := store.UpdateFileParent(id, target);
      if Sound(m, store.nextId) && err.None? {
        if target.Some? { AncestorsLive(m, id, target.value); }
        MovedSound(m, store.nextId, id, target);
      }
    }

    /** upload.go:847-859: one row's name and path; what is below it keeps its own. */
    method Rename(id: Id, name: string, path: string, ns: string) returns (err: Option<Error>)
      requires Sound(store.files, store.nextId)
      modifies store`files, store`steps
      ensures Sound(store.files, store.nextId)
      ensures err.None? ==> id in Live(old(store.files)) && old(store.files)[id].ns == ns
      ensures store.files == if err.None? then old(store.files)[id := old(store.files)[id].(name := name, path := path)]
                             else old(store.files)
      ensures store.Quiet(old(store.steps), store.steps) ==>
                err == if id !in Live(old(store.files)) then Some(NotFound)
                       else if old(store.files)[id].ns != ns then Some(Forbidden)
                       else None
    {
      var file;
      err, file := store.GetFile(id);
      if err.Some? { return; }
      if file.None? { return Some(NotFound); }
      if file.value.file.ns != ns { return Some(Forbidden); }
      RenamedSound(store.files, store.nextId, id, name, path);
      err := store.RenameFile(id, name, path);
    }

    /** The loop up from the target with its `seen` map. */
    method RefuseBelow(id: Id, target: Row) returns (err: Option<Error>)
      requires WellFormed(store.files)
      requires target.id in Live(store.files) && store.files[target.id] == target.file
      modifies store`steps
      ensures old(store.steps) <= store.steps
      ensures err.None? ==> !Under(Live(store.files), id, target.id)
      ensures store.Quiet(old(store.steps), store.steps) ==>
                err == if Under(Live(store.files), id, target.id) then Some(InvalidArgument) else None
    {
      ghost var live := Live(store.files);
      WellFormedCut(store.files, live);
      var seen: set<Id> := {};
      var current := Some(target);
      UnderStep(live, target.id, target.id);
      err := None;
      while current.Some? && current.value.id !in seen
        invariant err.None? && old(store.steps) <= store.steps && seen <= live.Keys
        invariant store.Quiet(old(store.steps), store.steps)
        invariant current.Some? ==> current.value.id in live && live[current.value.id] == current.value.file
        invariant current.Some? ==> forall y | y in seen :: y != current.value.id && Under(live, current.value.id, y)
        invariant Under(live, id, target.id) <==> current.Some? && Under(live, id, current.value.id)
        decreases live.Keys - seen, current.Some?
      {
        var c := current.value.id;
        UnderStep(live, id, c);
        UnderStep(live, c, c);
        seen := seen + {c};
        if c == id { return Some(InvalidArgument); }
        if current.value.file.parent.None? { break; }
        var p := current.value.file.parent.value;
        assert !Under(live, c, p);
        ParentAbove(live, seen, c, p);
        if Under(live, id, p) { UnderIn(live, id, p); }
        err, current := store.GetFile(p);
        if err.Some? { return; }
      }
    }
  }

  lemma ParentAbove(m: Files, seen: set<Id>, c: Id, p: Id)
    requires c in m && m[c].parent == Some(p) && !Under(m, c, p)
    requires forall y | y in seen :: Under(m, c, y)
    ensures p in m ==> forall y | y in seen :: y != p && Under(m, p, y)
  {
    if p in m {
      UnderStep(m, p, p);
      UnderStep(m, p, c);
      forall y | y in seen ensures y != p && Under(m, p, y) {
        UnderTransitive(m, p, c, y);
      }
    }
  }

  /** A restored row under a trashed parent hides its ancestors from the walk: here `0` may
      be moved below `2`, which lies below it. */
  lemma HiddenAncestor()
    ensures var row := (p: Option<Id>, del: Option<Time>) => File(None, "d", "d", 0, "ns", true, p, del);
            var m: Files := map[0 := row(None, None), 1 := row(Some(0), Some(0)), 2 := row(Some(1), None)];
            && WellFormed(m) && !TrashClosed(m)
            && MoveAnswer(m, 0, Some(2), "ns").None?
            && !WellFormed(m[0 := m[0].(parent := Some(2))])
  {
    var row := (p: Option<Id>, del: Option<Time>) => File(None, "d", "d", 0, "ns", true, p, del);
    var m: Files := map[0 := row(None, None), 1 := row(Some(0), Some(0)), 2 := row(Some(1), None)];
    var live := Live(m);
    UnderStep(m, 0, 0); UnderStep(m, 0, 1); UnderStep(m, 0, 2);
    UnderStep(m, 1, 0); UnderStep(m, 2, 1); UnderStep(m, 2, 0);
    UnderStep(live, 0, 2); UnderStep(live, 0, 1);
    assert Edge(m, 2, 1);
    assert WellFormed(m);
    MovedWellFormed(m, 0, 2);
  }
}
