/** Any number of finalizers at once, interleaved step by step, any step failing: the claim
    under WATCH (internal/adapters/metadata/redis.go:84-127), the commit
    (internal/domain/finalize.go:129-181) and the atomic insert-or-increment
    (internal/adapters/metadata/sqlite.go:164-193). Nothing is deleted meanwhile. */
module Finalizers {
  import opened Types
  import opened Forest
  import opened Refs
  import opened Content
  import opened Ingest

  datatype KeyStatus = KeyActive | KeyFinalizing | KeyGone

  /** A session key; every write to it gives it a new version, which WATCH compares. */
  datatype Key = Key(version: nat, status: KeyStatus)

  /** Where a finalizer is: before it has the session, on its way, or done. */
  datatype Phase =
    | Ready | Watching(seen: nat) | Rejected
    | Claimed
    | Written      // its copy is on disk
    | Discarding   // about to delete the copy and fail
    | Dropping     // the content was known: about to delete the copy and go on
    | Putting      // about to insert the file row
    | Undoing      // the insert failed: about to give the reference back
    | Done | Failed
    | Stuck        // giving the reference back failed

  /** One finalizer: its session, the content it commits and the path it writes to. */
  datatype Proc = Proc(session: Id, row: File, path: Path, data: Bytes, phase: Phase, copyLeft: bool)

  type Procs = map<Id, Proc>

  datatype State = State(keys: map<Id, Key>, files: Files, blobs: Blobs, disk: Disk, procs: Procs)

  /** A step of one finalizer, or of another client touching its session's key. The flag says
      whether the step succeeds. */
  datatype Action =
    | Touch(session: Id)
    | Watch(p: Id)
    | Claim(p: Id)
    | Write(p: Id, ok: bool)
    | Acquire(p: Id, ok: bool)
    | Delete(p: Id, ok: bool)
    | Put(p: Id, ok: bool)
    | Undo(p: Id, ok: bool)
    | Forget(p: Id)

  function ShaOf(q: Proc): Sha { if q.row.sha.Some? then q.row.sha.value else "" }

  function Move(s: State, p: Id, phase: Phase): State
    requires p in s.procs
  {
    s.(procs := s.procs[p := s.procs[p].(phase := phase)])
  }

  function Bump(s: State, k: Id, status: KeyStatus): State
    requires k in s.keys
  {
    s.(keys := s.keys[k := Key(s.keys[k].version + 1, status)])
  }

  /** The step, if it is that finalizer's turn to take it; nothing otherwise. */
  function Apply(s: State, a: Action): State {
    match a
    case Touch(k) => if k in s.keys then Bump(s, k, s.keys[k].status) else s
    case Watch(p) =>
      if p in s.procs && s.procs[p].phase.Ready? && s.procs[p].session in s.keys then
        var key := s.keys[s.procs[p].session];
        Move(s, p, if key.status.KeyActive? then Watching(key.version) else Rejected)
      else s
    case Claim(p) =>
      if p in s.procs && s.procs[p].phase.Watching? && s.procs[p].session in s.keys then
        var k := s.procs[p].session;
        if s.keys[k].version != s.procs[p].phase.seen then Move(s, p, Rejected)
        else Move(Bump(s, k, KeyFinalizing), p, Claimed)
      else s
    case Write(p, ok) =>
      if p in s.procs && s.procs[p].phase.Claimed? then
        if ok then Move(s.(disk := s.disk[s.procs[p].path := s.procs[p].data]), p, Written)
        else Move(s.(disk := s.disk - {s.procs[p].path}), p, Failed)
      else s
    case Acquire(p, ok) =>
      if p in s.procs && s.procs[p].phase.Written? then
        var q := s.procs[p];
        if !ok then Move(s, p, Discarding)
        else Move(s.(blobs := Acquired(s.blobs, ShaOf(q), q.path, |q.data|)), p,
                  if ShaOf(q) in s.blobs then Dropping else Putting)
      else s
    case Delete(p, ok) =>
      if p in s.procs && (s.procs[p].phase.Discarding? || s.procs[p].phase.Dropping?) then
        var q := s.procs[p].(phase := if s.procs[p].phase.Dropping? then Putting else Failed, copyLeft := !ok);
        s.(procs := s.procs[p := q], disk := if ok then s.disk - {q.path} else s.disk)
      else s
    case Put(p, ok) =>
      if p in s.procs && s.procs[p].phase.Putting? then
        if ok then Move(s.(files := s.files[p := s.procs[p].row]), p, Done) else Move(s, p, Undoing)
      else s
    case Undo(p, ok) =>
      if p in s.procs && s.procs[p].phase.Undoing? then
        if ok then Move(s.(blobs := Decr(s.blobs, ShaOf(s.procs[p]))), p, Failed) else Move(s, p, Stuck)
      else s
    case Forget(p) =>
      if p in s.procs && s.procs[p].phase.Done? && s.procs[p].session in s.keys then
        Bump(s, s.procs[p].session, KeyGone)
      else s
  }

  function Run(s: State, actions: seq<Action>): State {
    if actions == [] then s else Apply(Run(s, actions[..|actions| - 1]), actions[|actions| - 1])
  }

  // ---------- claims ----------

  predicate HasClaim(ph: Phase) { !ph.Ready? && !ph.Watching? && !ph.Rejected? }

  /** A version seen is current only while the session is still active, and no two
      finalizers hold the same session. */
  ghost predicate ClaimsApart(s: State) {
    && (forall p | p in s.procs :: s.procs[p].session in s.keys)
    && (forall p | p in s.procs && s.procs[p].phase.Watching? ::
          var key := s.keys[s.procs[p].session];
          s.procs[p].phase.seen <= key.version && (s.procs[p].phase.seen == key.version ==> key.status.KeyActive?))
    && (forall p | p in s.procs && HasClaim(s.procs[p].phase) :: !s.keys[s.procs[p].session].status.KeyActive?)
    && (forall p, q | p in s.procs && q in s.procs && p != q
                      && HasClaim(s.procs[p].phase) && HasClaim(s.procs[q].phase) ::
          s.procs[p].session != s.procs[q].session)
  }

  /** A finalizer that has its session, or was turned away, moves on. */
  lemma ClaimMoves(s: State, s': State, p: Id, q: Proc)
    requires ClaimsApart(s) && p in s.procs && s'.keys == s.keys && s'.procs == s.procs[p := q]
    requires q.session == s.procs[p].session && !q.phase.Watching? && (HasClaim(q.phase) ==> HasClaim(s.procs[p].phase))
    ensures ClaimsApart(s')
  {
  }

  lemma ClaimBump(s: State, k: Id, status: KeyStatus)
    requires ClaimsApart(s) && k in s.keys && (status == s.keys[k].status || !status.KeyActive?)
    ensures ClaimsApart(Bump(s, k, status))
  {
  }

  lemma ClaimWatch(s: State, p: Id)
    requires ClaimsApart(s)
    ensures ClaimsApart(Apply(s, Watch(p)))
  {
  }

  /** Only one of several finalizers that saw the session active gets it: the first write
      moves the version. */
  lemma ClaimClaim(s: State, p: Id)
    requires ClaimsApart(s) && p in s.procs && s.procs[p].phase.Watching?
    requires s.keys[s.procs[p].session].version == s.procs[p].phase.seen
    ensures ClaimsApart(Move(Bump(s, s.procs[p].session, KeyFinalizing), p, Claimed))
  {
  }

  /** The steps of a finalizer that has its session. */
  predicate Working(a: Action) { a.Write? || a.Acquire? || a.Delete? || a.Put? || a.Undo? }

  /** They move it on and leave the keys alone. */
  lemma WorkEffect(s: State, a: Action)
    requires Working(a) && Apply(s, a) != s
    ensures var s', p := Apply(s, a), a.p;
            && p in s.procs && p in s'.procs && s'.keys == s.keys && s'.procs == s.procs[p := s'.procs[p]]
            && s'.procs[p].session == s.procs[p].session
            && HasClaim(s.procs[p].phase) && HasClaim(s'.procs[p].phase)
  {
  }

  lemma ClaimStep(s: State, a: Action)
    requires ClaimsApart(s)
    ensures ClaimsApart(Apply(s, a))
  {
    var s' := Apply(s, a);
    if s' != s {
      if Working(a) {
        WorkEffect(s, a);
        ClaimMoves(s, s', a.p, s'.procs[a.p]);
      } else if a.Touch? {
        ClaimBump(s, a.session, s.keys[a.session].status);
      } else if a.Forget? {
        ClaimBump(s, s.procs[a.p].session, KeyGone);
      } else if a.Watch? {
        ClaimWatch(s, a.p);
      } else if s.keys[s.procs[a.p].session].version == s.procs[a.p].phase.seen {
        ClaimClaim(s, a.p);
      } else {
        ClaimMoves(s, s', a.p, s'.procs[a.p]);
      }
    }
  }

  // ---------- counts ----------

  /** Finalizers holding a reference their row does not stand for yet. */
  predicate HoldsReference(ph: Phase) { ph.Dropping? || ph.Putting? || ph.Undoing? || ph.Stuck? }

  ghost function Holding(procs: Procs, h: Sha): set<Id> {
    set p | p in procs && ShaOf(procs[p]) == h && HoldsReference(procs[p].phase)
  }

  /** Every count is the rows naming the hash and the references held on their way in or
      lost on their way out. */
  ghost predicate Counted(s: State) {
    && (forall p | p in s.procs :: s.procs[p].row.sha.Some? && (p in s.files ==> s.procs[p].phase.Done?))
    && (forall h | h in s.blobs :: s.blobs[h].refs == Count(s.files, h) + |Holding(s.procs, h)|)
    && (forall x | x in s.files && s.files[x].sha.Some? :: s.files[x].sha.value in s.blobs)
    && (forall p | p in s.procs && HoldsReference(s.procs[p].phase) :: ShaOf(s.procs[p]) in s.blobs)
  }

  /** What one finalizer's step does to the set of holders of each hash. */
  lemma HoldingMoved(procs: Procs, p: Id, q: Proc, h: Sha)
    requires p in procs && q.row == procs[p].row
    ensures |Holding(procs[p := q], h)| == |Holding(procs, h)|
              + (if ShaOf(q) == h && HoldsReference(q.phase) && !HoldsReference(procs[p].phase) then 1 else 0)
              - (if ShaOf(q) == h && !HoldsReference(q.phase) && HoldsReference(procs[p].phase) then 1 else 0)
  {
    var before, after := Holding(procs, h), Holding(procs[p := q], h);
    assert after - {p} == before - {p};
    assert p in before <==> ShaOf(q) == h && HoldsReference(procs[p].phase);
    assert p in after <==> ShaOf(q) == h && HoldsReference(q.phase);
    Without(before, p);
    Without(after, p);
  }

  lemma Without(a: set<Id>, p: Id)
    ensures |a| == |a - {p}| + if p in a then 1 else 0
  {
  }

  /** A step that touches neither table and takes or gives back nothing. */
  lemma CountKept(s: State, s': State, p: Id, q: Proc)
    requires Counted(s) && p in s.procs && s'.files == s.files && s'.blobs == s.blobs && s'.procs == s.procs[p := q]
    requires q.row == s.procs[p].row && HoldsReference(q.phase) == HoldsReference(s.procs[p].phase)
    requires !s.procs[p].phase.Done?
    ensures Counted(s')
  {
    forall h | h in s.blobs ensures |Holding(s'.procs, h)| == |Holding(s.procs, h)| { HoldingMoved(s.procs, p, q, h); }
  }

  lemma CountAcquire(s: State, p: Id, q: Proc, blobs: Blobs)
    requires Counted(s) && p in s.procs && !s.procs[p].phase.Done?
    requires !HoldsReference(s.procs[p].phase) && HoldsReference(q.phase) && q.row == s.procs[p].row
    requires blobs == Acquired(s.blobs, ShaOf(q), q.path, |q.data|)
    ensures Counted(s.(blobs := blobs, procs := s.procs[p := q]))
  {
    forall h | h in blobs ensures blobs[h].refs == Count(s.files, h) + |Holding(s.procs[p := q], h)| {
      NewBlobUncounted(s, h);
      HoldingMoved(s.procs, p, q, h);
      RaisedOne(s.blobs, ShaOf(q), q.path, |q.data|, h);
    }
  }

  lemma RaisedOne(blobs: Blobs, s: Sha, path: Path, size: nat, h: Sha)
    ensures var b := Acquired(blobs, s, path, size);
            && b.Keys == blobs.Keys + {s}
            && (h in b ==> b[h].refs == (if h in blobs then blobs[h].refs else 0) + if h == s then 1 else 0)
  {
  }

  lemma CountPut(s: State, p: Id, q: Proc)
    requires Counted(s) && p in s.procs && s.procs[p].phase.Putting? && q == s.procs[p].(phase := Done)
    ensures Counted(s.(files := s.files[p := q.row], procs := s.procs[p := q]))
  {
    forall h | h in s.blobs ensures s.blobs[h].refs == Count(s.files[p := q.row], h) + |Holding(s.procs[p := q], h)| {
      HoldingMoved(s.procs, p, q, h);
      CountInsert(s.files, p, q.row, h);
    }
  }

  lemma CountUndo(s: State, p: Id, q: Proc)
    requires Counted(s) && p in s.procs && s.procs[p].phase.Undoing? && q == s.procs[p].(phase := Failed)
    ensures Counted(s.(blobs := Decr(s.blobs, ShaOf(q)), procs := s.procs[p := q]))
  {
    assert p in Holding(s.procs, ShaOf(q));
    LowerOne(s.blobs, ShaOf(q));
    forall h | h in s.blobs
      ensures Decr(s.blobs, ShaOf(q))[h].refs == Count(s.files, h) + |Holding(s.procs[p := q], h)|
    {
      HoldingMoved(s.procs, p, q, h);
    }
  }

  lemma LowerOne(blobs: Blobs, s: Sha)
    requires s in blobs && blobs[s].refs > 0
    ensures Decr(blobs, s).Keys == blobs.Keys
    ensures forall h | h in blobs :: Decr(blobs, s)[h].refs == blobs[h].refs - if h == s then 1 else 0
  {
  }

  lemma NewBlobUncounted(s: State, h: Sha)
    requires Counted(s)
    ensures h !in s.blobs ==> Count(s.files, h) == 0 && |Holding(s.procs, h)| == 0
  {
  }

  predicate Counts(a: Action) { (a.Acquire? || a.Put? || a.Undo?) && a.ok }

  /** The other steps move one finalizer and leave both tables. */
  lemma QuietEffect(s: State, a: Action)
    requires !Counts(a) && Apply(s, a) != s && !a.Touch? && !a.Forget?
    ensures a.p in s.procs && a.p in Apply(s, a).procs
    ensures var s', p := Apply(s, a), a.p;
            && s'.files == s.files && s'.blobs == s.blobs && s'.procs == s.procs[p := s'.procs[p]]
            && s'.procs[p].row == s.procs[p].row && s'.procs[p].path == s.procs[p].path
            && s'.procs[p].data == s.procs[p].data
            && HoldsReference(s'.procs[p].phase) == HoldsReference(s.procs[p].phase) && !s.procs[p].phase.Done?
  {
  }

  lemma CountQuiet(s: State, a: Action)
    requires Counted(s) && !Counts(a) && Apply(s, a) != s
    ensures Counted(Apply(s, a))
  {
    var s' := Apply(s, a);
    if !a.Touch? && !a.Forget? {
      QuietEffect(s, a);
      CountKept(s, s', a.p, s'.procs[a.p]);
    }
  }

  lemma CountStep(s: State, a: Action)
    requires Counted(s)
    ensures Counted(Apply(s, a))
  {
    var s' := Apply(s, a);
    if s' != s && !Counts(a) {
      CountQuiet(s, a);
    } else if s' != s {
      match a
      case Acquire(p, ok) => CountAcquire(s, p, s'.procs[p], s'.blobs);
      case Put(p, ok) => CountPut(s, p, s'.procs[p]);
      case Undo(p, ok) => CountUndo(s, p, s'.procs[p]);
    }
  }

  // ---------- copies ----------

  /** Before it has put its content on record, a finalizer's path is nobody's. */
  predicate Unrecorded(ph: Phase) { !ph.Putting? && !ph.Undoing? && !ph.Done? && !ph.Failed? && !ph.Stuck? }

  predicate HasCopy(ph: Phase) { ph.Written? || ph.Discarding? || ph.Dropping? }

  /** Every blob has its bytes; a finalizer's path holds something only while its copy is in
      use, when its deletion failed, or when it is where the blob lives. */
  ghost predicate Copied(s: State, hash: Bytes -> Sha) {
    && (forall p, q | p in s.procs && q in s.procs && p != q :: s.procs[p].path != s.procs[q].path)
    && (forall p | p in s.procs :: ShaOf(s.procs[p]) == hash(s.procs[p].data))
    && (forall p, h | p in s.procs && h in s.blobs && Unrecorded(s.procs[p].phase) ::
          s.blobs[h].path != s.procs[p].path)
    && (forall p | p in s.procs && HasCopy(s.procs[p].phase) ::
          s.procs[p].path in s.disk && s.disk[s.procs[p].path] == s.procs[p].data)
    && (forall p | p in s.procs && s.procs[p].path in s.disk :: CopyAccounted(s, s.procs[p]))
    && (forall h | h in s.blobs :: Holds(s.blobs[h], h, s.disk, hash))
  }

  ghost predicate CopyAccounted(s: State, q: Proc) {
    HasCopy(q.phase) || q.copyLeft || (ShaOf(q) in s.blobs && s.blobs[ShaOf(q)].path == q.path)
  }

  lemma CopyMoves(s: State, s': State, p: Id, q: Proc, hash: Bytes -> Sha)
    requires Copied(s, hash) && p in s.procs && s'.disk == s.disk && s'.blobs == s.blobs && s'.procs == s.procs[p := q]
    requires q.path == s.procs[p].path && q.data == s.procs[p].data && q.row == s.procs[p].row
    requires (s.procs[p].copyLeft ==> q.copyLeft)
    requires (HasCopy(q.phase) <==> HasCopy(s.procs[p].phase)) || (!HasCopy(q.phase) && q.copyLeft)
    requires Unrecorded(q.phase) ==> Unrecorded(s.procs[p].phase)
    ensures Copied(s', hash)
  {
  }

  /** A step that changes the disk at its finalizer's path only, while no blob lies there. */
  lemma CopyDisk(s: State, s': State, p: Id, q: Proc, hash: Bytes -> Sha)
    requires Copied(s, hash) && p in s.procs && s'.blobs == s.blobs && s'.procs == s.procs[p := q]
    requires q.path == s.procs[p].path && q.data == s.procs[p].data && q.row == s.procs[p].row
    requires Unrecorded(s.procs[p].phase)
    requires forall x | x != q.path :: (x in s'.disk <==> x in s.disk) && (x in s.disk ==> s'.disk[x] == s.disk[x])
    requires HasCopy(q.phase) ==> q.path in s'.disk && s'.disk[q.path] == q.data
    requires q.path in s'.disk ==> HasCopy(q.phase)
    ensures Copied(s', hash)
  {
    forall r | r in s'.procs && s'.procs[r].path in s'.disk ensures CopyAccounted(s', s'.procs[r]) {
      if r != p { assert CopyAccounted(s, s.procs[r]); }
    }
    forall h | h in s'.blobs ensures Holds(s'.blobs[h], h, s'.disk, hash) {
      assert Holds(s.blobs[h], h, s.disk, hash);
    }
  }

  lemma CopyWrite(s: State, p: Id, ok: bool, hash: Bytes -> Sha)
    requires Copied(s, hash) && p in s.procs && s.procs[p].phase.Claimed?
    ensures Copied(Apply(s, Write(p, ok)), hash)
  {
    CopyDisk(s, Apply(s, Write(p, ok)), p, s.procs[p].(phase := if ok then Written else Failed), hash);
  }

  lemma CopyDelete(s: State, p: Id, hash: Bytes -> Sha)
    requires Copied(s, hash) && p in s.procs && (s.procs[p].phase.Discarding? || s.procs[p].phase.Dropping?)
    ensures Copied(Apply(s, Delete(p, true)), hash)
  {
    var q := s.procs[p].(phase := if s.procs[p].phase.Dropping? then Putting else Failed, copyLeft := false);
    CopyDisk(s, Apply(s, Delete(p, true)), p, q, hash);
  }

  lemma CopyAcquire(s: State, p: Id, hash: Bytes -> Sha)
    requires Copied(s, hash) && p in s.procs && s.procs[p].phase.Written?
    ensures Copied(Apply(s, Acquire(p, true)), hash)
  {
    var q := s.procs[p].(phase := if ShaOf(s.procs[p]) in s.blobs then Dropping else Putting);
    AcquiredHolds(s.blobs, ShaOf(q), q.path, q.data, s.disk, hash);
    CopyAcquired(s, p, q, Acquired(s.blobs, ShaOf(q), q.path, |q.data|), hash);
  }

  lemma CopyAcquired(s: State, p: Id, q: Proc, b: Blobs, hash: Bytes -> Sha)
    requires Copied(s, hash) && p in s.procs && s.procs[p].phase.Written?
    requires q == s.procs[p].(phase := if ShaOf(s.procs[p]) in s.blobs then Dropping else Putting)
    requires forall h | h in s.blobs :: h in b && b[h].path == s.blobs[h].path
    requires forall h | h in b && h !in s.blobs :: h == ShaOf(q) && b[h].path == q.path
    requires ShaOf(q) in b && forall h | h in b :: Holds(b[h], h, s.disk, hash)
    ensures Copied(s.(blobs := b, procs := s.procs[p := q]), hash)
  {
  }

  /** Known blobs stay where they are, and a new one is where its copy is. */
  lemma AcquiredHolds(blobs: Blobs, s: Sha, path: Path, data: Bytes, disk: Disk, hash: Bytes -> Sha)
    requires path in disk && disk[path] == data && hash(data) == s
    requires forall h | h in blobs :: Holds(blobs[h], h, disk, hash)
    ensures var b := Acquired(blobs, s, path, |data|);
            && (forall h | h in blobs :: h in b && b[h].path == blobs[h].path)
            && (forall h | h in b && h !in blobs :: h == s && b[h].path == path)
            && s in b && (forall h | h in b :: Holds(b[h], h, disk, hash))
  {
  }

  lemma CopyUndo(s: State, p: Id, hash: Bytes -> Sha)
    requires Copied(s, hash) && p in s.procs && s.procs[p].phase.Undoing?
    ensures Copied(Apply(s, Undo(p, true)), hash)
  {
    CopyMoves(s, Move(s, p, Failed), p, s.procs[p].(phase := Failed), hash);
    CopyCounts(Move(s, p, Failed), Decr(s.blobs, ShaOf(s.procs[p])), hash);
  }

  /** Counts do not matter to the copies. */
  lemma CopyCounts(s: State, b: Blobs, hash: Bytes -> Sha)
    requires Copied(s, hash) && b.Keys == s.blobs.Keys
    requires forall h | h in b :: b[h].path == s.blobs[h].path && b[h].size == s.blobs[h].size
    ensures Copied(s.(blobs := b), hash)
  {
  }

  /** The steps that neither write, delete nor change a blob. */
  predicate Idle(a: Action) { a.Watch? || a.Claim? || a.Put? || ((a.Acquire? || a.Undo? || a.Delete?) && !a.ok) }

  lemma IdleEffect(s: State, a: Action)
    requires Idle(a) && Apply(s, a) != s
    ensures var s', p := Apply(s, a), a.p;
            && p in s.procs && p in s'.procs && s'.disk == s.disk && s'.blobs == s.blobs
            && s'.procs == s.procs[p := s'.procs[p]]
            && s'.procs[p].path == s.procs[p].path && s'.procs[p].data == s.procs[p].data
            && s'.procs[p].row == s.procs[p].row
            && (s.procs[p].copyLeft && !a.Delete? ==> s'.procs[p].copyLeft) && (a.Delete? ==> s'.procs[p].copyLeft)
            && ((HasCopy(s'.procs[p].phase) <==> HasCopy(s.procs[p].phase))
                || (!HasCopy(s'.procs[p].phase) && s'.procs[p].copyLeft))
            && (Unrecorded(s'.procs[p].phase) ==> Unrecorded(s.procs[p].phase))
  {
  }

  lemma CopyQuiet(s: State, a: Action, hash: Bytes -> Sha)
    requires Copied(s, hash) && Apply(s, a) != s && Idle(a)
    ensures Copied(Apply(s, a), hash)
  {
    IdleEffect(s, a);
    CopyMoves(s, Apply(s, a), a.p, Apply(s, a).procs[a.p], hash);
  }

  lemma CopyStep(s: State, a: Action, hash: Bytes -> Sha)
    requires Copied(s, hash)
    ensures Copied(Apply(s, a), hash)
  {
    var s' := Apply(s, a);
    if s' != s {
      if a.Touch? || a.Forget? {
        CopySame(s, s', hash);
      } else if a.Write? {
        CopyWrite(s, a.p, a.ok, hash);
      } else if a.Acquire? && a.ok {
        CopyAcquire(s, a.p, hash);
      } else if a.Delete? && a.ok {
        CopyDelete(s, a.p, hash);
      } else if a.Undo? && a.ok {
        CopyUndo(s, a.p, hash);
      } else {
        CopyQuiet(s, a, hash);
      }
    }
  }

  lemma CopySame(s: State, s': State, hash: Bytes -> Sha)
    requires Copied(s, hash) && s'.disk == s.disk && s'.blobs == s.blobs && s'.procs == s.procs
    ensures Copied(s', hash)
  {
  }

  // ---------- a finalizer on its own ----------

  /** Undisturbed and without failures a finalizer ends with its row inserted, its content counted
      and no copy but the blob's. */
  lemma Completes(s: State, p: Id)
    requires p in s.procs && s.procs[p].phase.Ready? && !s.procs[p].copyLeft && s.procs[p].row.sha.Some?
    requires s.procs[p].session in s.keys && s.keys[s.procs[p].session].status.KeyActive?
    requires s.procs[p].path !in s.disk
    ensures var q, h := s.procs[p], ShaOf(s.procs[p]);
            var s' := Apply(Apply(Apply(Apply(Apply(Apply(s, Watch(p)), Claim(p)), Write(p, true)), Acquire(p, true)),
                                  Delete(p, true)), Put(p, true));
            && p in s'.procs && s'.procs[p].phase.Done? && s'.files == s.files[p := q.row]
            && s'.blobs == Acquired(s.blobs, h, q.path, |q.data|)
            && s'.disk == (if h in s.blobs then s.disk else s.disk[q.path := q.data])
  {
    var q := s.procs[p];
    var s3 := Apply(Apply(Apply(s, Watch(p)), Claim(p)), Write(p, true));
    assert s3.procs == s.procs[p := q.(phase := Written)] && s3.blobs == s.blobs && s3.files == s.files;
    assert s3.disk == s.disk[q.path := q.data] && s3.disk - {q.path} == s.disk;
    CompletesWritten(s3, p);
  }

  lemma CompletesWritten(s: State, p: Id)
    requires p in s.procs && s.procs[p].phase.Written? && !s.procs[p].copyLeft
    ensures var q, h := s.procs[p], ShaOf(s.procs[p]);
            var s' := Apply(Apply(Apply(s, Acquire(p, true)), Delete(p, true)), Put(p, true));
            && p in s'.procs && s'.procs[p].phase.Done? && s'.files == s.files[p := q.row]
            && s'.blobs == Acquired(s.blobs, h, q.path, |q.data|)
            && s'.disk == (if h in s.blobs then s.disk - {q.path} else s.disk)
  {
  }

  // ---------- runs ----------

  ghost predicate Safe(s: State, hash: Bytes -> Sha) { ClaimsApart(s) && Counted(s) && Copied(s, hash) }

  /** Nothing has started: the counts are exact, every blob has its bytes, and the finalizers'
      rows and paths are new. */
  ghost predicate Fresh(s: State, hash: Bytes -> Sha) {
    && Conserved(s.files, s.blobs) && (forall h | h in s.blobs :: Holds(s.blobs[h], h, s.disk, hash))
    && (forall p | p in s.procs ::
          s.procs[p].phase.Ready? && !s.procs[p].copyLeft && s.procs[p].session in s.keys && p !in s.files
          && s.procs[p].row.sha == Some(hash(s.procs[p].data)) && s.procs[p].path !in s.disk)
    && (forall p, h | p in s.procs && h in s.blobs :: s.blobs[h].path != s.procs[p].path)
    && (forall p, q | p in s.procs && q in s.procs && p != q :: s.procs[p].path != s.procs[q].path)
  }

  lemma FreshSafe(s: State, hash: Bytes -> Sha)
    requires Fresh(s, hash)
    ensures Safe(s, hash)
  {
    FreshCopied(s, hash);
    forall h ensures Holding(s.procs, h) == {} {}
  }

  lemma FreshCopied(s: State, hash: Bytes -> Sha)
    requires Fresh(s, hash)
    ensures Copied(s, hash)
  {
  }

  /** Every interleaving keeps all three. */
  lemma {:induction false} RunSafe(s: State, actions: seq<Action>, hash: Bytes -> Sha)
    requires Safe(s, hash)
    ensures Safe(Run(s, actions), hash)
    decreases |actions|
  {
    if actions != [] {
      var before, a := Run(s, actions[..|actions| - 1]), actions[|actions| - 1];
      RunSafe(s, actions[..|actions| - 1], hash);
      ClaimStep(before, a);
      CountStep(before, a);
      CopyStep(before, a, hash);
    }
  }

  ghost predicate AtRest(s: State) {
    forall p | p in s.procs ::
      var ph := s.procs[p].phase; ph.Ready? || ph.Rejected? || ph.Done? || ph.Failed? || ph.Stuck?
  }

  ghost function StuckOn(s: State, h: Sha): set<Id> {
    set p | p in s.procs && ShaOf(s.procs[p]) == h && s.procs[p].phase.Stuck?
  }

  /** However a run of finalizers was interleaved, once none is in the middle of a commit:
      every session was finalized at most once; each count is the rows naming the hash plus
      the rollbacks that failed; and of a finished content exactly the blob's own copy is on
      disk, apart from copies whose deletion failed. */
  lemma FinalizersAgree(s0: State, actions: seq<Action>, hash: Bytes -> Sha)
    requires Fresh(s0, hash) && AtRest(Run(s0, actions))
    ensures var s := Run(s0, actions);
            && (forall p, q | p in s.procs && q in s.procs && p != q
                              && s.procs[p].phase.Done? && s.procs[q].phase.Done? ::
                  s.procs[p].session != s.procs[q].session)
            && (forall h | h in s.blobs :: s.blobs[h].refs == Count(s.files, h) + |StuckOn(s, h)|)
            && (forall p | p in s.procs && s.procs[p].path in s.disk && !s.procs[p].copyLeft ::
                  ShaOf(s.procs[p]) in s.blobs && s.blobs[ShaOf(s.procs[p])].path == s.procs[p].path)
            && (forall x | x in s.files && s.files[x].sha.Some? ::
                  s.files[x].sha.value in s.blobs
                  && Holds(s.blobs[s.files[x].sha.value], s.files[x].sha.value, s.disk, hash))
  {
    FreshSafe(s0, hash);
    RunSafe(s0, actions, hash);
    SafeAtRest(Run(s0, actions), hash);
  }

  lemma SafeAtRest(s: State, hash: Bytes -> Sha)
    requires Safe(s, hash) && AtRest(s)
    ensures forall h | h in s.blobs :: s.blobs[h].refs == Count(s.files, h) + |StuckOn(s, h)|
    ensures forall p | p in s.procs && s.procs[p].path in s.disk && !s.procs[p].copyLeft ::
              ShaOf(s.procs[p]) in s.blobs && s.blobs[ShaOf(s.procs[p])].path == s.procs[p].path
  {
    forall h ensures Holding(s.procs, h) == StuckOn(s, h) {}
    forall p | p in s.procs && s.procs[p].path in s.disk && !s.procs[p].copyLeft
      ensures ShaOf(s.procs[p]) in s.blobs && s.blobs[ShaOf(s.procs[p])].path == s.procs[p].path
    {
      assert CopyAccounted(s, s.procs[p]);
    }
  }
}
