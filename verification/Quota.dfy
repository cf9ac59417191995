/** The namespace quota over interleaved operations (internal/domain/upload.go:72-174,
    195-213, 598-601; internal/adapters/metadata/sqlite.go:40-88): each reserves, may adjust
    its reservation, inserts its row and releases, with other operations in between. */
module Quota {
  import opened Types
  import opened Forest
  import opened Sums
  import opened Stores

  /** An upload, an instant upload or a finalize. `Holding` is after its reservation, with the
      bytes it may still insert; `guarded` once it may insert them. `Over` is after its row
      was inserted or it failed; its reservation may still be there. */
  datatype Phase = Waiting | Holding(bytes: nat, guarded: bool) | Over

  datatype Op = Op(ns: string, instant: bool, phase: Phase)

  datatype State = State(files: Files, reservations: Reservations, ops: map<Id, Op>, quota: int)

  datatype Action =
    | Reserve(o: Id, bytes: int, ok: bool)   // CreateSession or CheckExists; may fail
    | Adjust(o: Id, size: nat, ok: bool)     // the guard inside Finalize
    | Insert(o: Id, row: Id)                 // the row of the size held
    | Fail(o: Id)                            // any failure, or abort of an active session
    | Release(o: Id)                         // releases what an operation left behind
    | Remove(row: Id)                        // trash or delete a file
    | Restore(row: Id)
    | Copy(row: Id, from: Id)
    | AbortBusy(o: Id)                       // abort of a session that a finalize has claimed

  function Reserved(s: State, o: Id, bytes: nat): Reservations
    requires o in s.ops
  {
    s.reservations[o := Reservation(s.ops[o].ns, bytes)]
  }

  function Step(s: State, o: Id, phase: Phase): State
    requires o in s.ops
  {
    s.(ops := s.ops[o := s.ops[o].(phase := phase)])
  }

  function RowOf(ns: string, size: nat): File { File(None, "", "", size, ns, false, None, None) }

  /** No limit or nothing to reserve: no reservation is made and the operation goes on. */
  ghost predicate Granted(s: State, o: Id, bytes: int)
    requires o in s.ops
  {
    s.quota <= 0 || bytes <= 0 || Admits(s.files, s.reservations, s.ops[o].ns, o, bytes, s.quota)
  }

  ghost function Hold(s: State, o: Id, bytes: nat, guarded: bool): State
    requires o in s.ops
  {
    var s' := if s.quota <= 0 || bytes == 0 then s else s.(reservations := Reserved(s, o, bytes));
    Step(s', o, Holding(bytes, guarded))
  }

  ghost function Apply(s: State, a: Action): State {
    match a
    case Reserve(o, bytes, ok) =>
      if o in s.ops && s.ops[o].phase.Waiting? then
        if bytes >= 0 && ok && Granted(s, o, bytes) then Hold(s, o, bytes, s.ops[o].instant) else Step(s, o, Over)
      else s
    case Adjust(o, size, ok) =>
      if o in s.ops && s.ops[o].phase.Holding? && !s.ops[o].phase.guarded then
        if ok && Granted(s, o, size) then Hold(s, o, size, true) else Step(s, o, Over)
      else s
    case Insert(o, row) =>
      if o in s.ops && s.ops[o].phase.Holding? && s.ops[o].phase.guarded && row !in s.files then
        Step(s.(files := s.files[row := RowOf(s.ops[o].ns, s.ops[o].phase.bytes)]), o, Over)
      else s
    case Fail(o) => if o in s.ops && s.ops[o].phase.Holding? then Step(s, o, Over) else s
    case Release(o) =>
      if o in s.ops && s.ops[o].phase.Over? then s.(reservations := s.reservations - {o}) else s
    case Remove(row) =>
      if row in s.files then s.(files := s.files[row := s.files[row].(deletedAt := Some(0))]) else s
    case Restore(row) =>
      if row in s.files then s.(files := s.files[row := s.files[row].(deletedAt := None)]) else s
    case Copy(row, from) =>
      if row !in s.files && from in s.files && Active(s.files[from]) then s.(files := s.files[row := s.files[from]])
      else s
    case AbortBusy(o) =>
      if o in s.ops && s.ops[o].phase.Holding? && !s.ops[o].instant then s.(reservations := s.reservations - {o}) else s
  }

  ghost function Run(s: State, actions: seq<Action>): State {
    if actions == [] then s else Apply(Run(s, actions[..|actions| - 1]), actions[|actions| - 1])
  }

  /** The operations the reservations protect against: all but restore, copy and the abort of
      a session being finalized. */
  predicate Reserving(a: Action) { !a.Restore? && !a.Copy? && !a.AbortBusy? }

  // ---------- the invariant ----------

  /** The operations whose bytes are promised room: with `all`, every one that holds a
      reservation, else only those that need not ask again before they insert. */
  predicate Promised(ph: Phase, all: bool) { ph.Holding? && (all || ph.guarded) }

  /** What the promised operations of a namespace may still insert, by operation. */
  function Pending(ops: map<Id, Op>, ns: string, all: bool): map<Id, nat> {
    map o | o in ops && ops[o].ns == ns && Promised(ops[o].phase, all) :: ops[o].phase.bytes
  }

  ghost function Unspent(s: State, ns: string, all: bool): nat { Total(Pending(s.ops, ns, all)) }

  /** Used bytes and the promised bytes fit the quota. */
  ghost predicate Within(s: State, ns: string, all: bool) {
    s.quota > 0 ==> Used(s.files, ns) + Unspent(s, ns, all) <= s.quota
  }

  /** What a promised operation may still insert is covered by its reservation, and
      reservations are under their operation's namespace. */
  ghost predicate Backed(s: State, all: bool) {
    && (forall o | o in s.ops && Promised(s.ops[o].phase, all) && s.quota > 0 ::
          s.ops[o].phase.bytes <= CurrentOf(s.reservations, o))
    && (forall o | o in s.ops && o in s.reservations :: s.reservations[o].ns == s.ops[o].ns)
  }

  ghost predicate Safe(s: State, all: bool) { Backed(s, all) && forall ns :: Within(s, ns, all) }

  /** The others' share is at most what is reserved beside `o`. */
  lemma OthersReserved(s: State, ns: string, o: Id, all: bool)
    requires Backed(s, all) && s.quota > 0 && (o in s.reservations ==> s.reservations[o].ns == ns)
    ensures Total(Pending(s.ops, ns, all) - {o}) <= Held(s.reservations, ns) - CurrentOf(s.reservations, o)
  {
    var others := Pending(s.ops, ns, all) - {o};
    var kept := map p | p in others && others[p] > 0 :: others[p];
    TotalDrop(Holdings(s.reservations, ns), o);
    DropZeros(others);
    TotalMono(kept, Holdings(s.reservations, ns) - {o});
  }

  lemma PendingMoved(ops: map<Id, Op>, o: Id, phase: Phase, ns: string, all: bool)
    requires o in ops
    ensures Total(Pending(ops[o := ops[o].(phase := phase)], ns, all))
         == Total(Pending(ops, ns, all) - {o}) + if ops[o].ns == ns && Promised(phase, all) then phase.bytes else 0
  {
    var ops' := ops[o := ops[o].(phase := phase)];
    TotalDrop(Pending(ops', ns, all), o);
    assert Pending(ops', ns, all) - {o} == Pending(ops, ns, all) - {o};
  }

  /** A granted reservation. */
  lemma HoldSafe(s: State, o: Id, bytes: nat, guarded: bool, all: bool)
    requires Safe(s, all) && o in s.ops && Granted(s, o, bytes)
    ensures Safe(Hold(s, o, bytes, guarded), all)
  {
    var s' := Hold(s, o, bytes, guarded);
    forall ns ensures Within(s', ns, all) {
      PendingMoved(s.ops, o, Holding(bytes, guarded), ns, all);
      TotalDrop(Pending(s.ops, ns, all), o);
      assert Within(s, ns, all);
      if s.quota > 0 && bytes > 0 && s.ops[o].ns == ns { OthersReserved(s, ns, o, all); }
    }
  }

  /** An operation that stops without inserting. */
  lemma OverSafe(s: State, o: Id, all: bool)
    requires Safe(s, all) && o in s.ops
    ensures Safe(Step(s, o, Over), all)
  {
    forall ns ensures Within(Step(s, o, Over), ns, all) {
      PendingMoved(s.ops, o, Over, ns, all);
      TotalDrop(Pending(s.ops, ns, all), o);
      assert Within(s, ns, all);
    }
  }

  /** Changing whether a row is active. */
  lemma UsedFlip(files: Files, x: Id, f: File, ns: string)
    requires x in files && f.size == files[x].size && f.ns == files[x].ns
    ensures Used(files[x := f], ns) == Used(files, ns)
              + (if f.ns == ns && Active(f) && !Active(files[x]) then f.size else 0)
              - (if f.ns == ns && !Active(f) && Active(files[x]) then f.size else 0)
  {
    TotalDrop(Sizes(files[x := f], ns), x);
    TotalDrop(Sizes(files, ns), x);
    assert Sizes(files[x := f], ns) - {x} == Sizes(files, ns) - {x};
  }

  /** Inserting what was held: used bytes grow by what the operation no longer may insert,
      although its reservation is still there. */
  lemma InsertSafe(s: State, o: Id, row: Id, all: bool)
    requires Safe(s, all) && o in s.ops && Promised(s.ops[o].phase, all) && row !in s.files
    ensures Safe(Step(s.(files := s.files[row := RowOf(s.ops[o].ns, s.ops[o].phase.bytes)]), o, Over), all)
  {
    var f := RowOf(s.ops[o].ns, s.ops[o].phase.bytes);
    var s' := Step(s.(files := s.files[row := f]), o, Over);
    forall ns ensures Within(s', ns, all) {
      PendingMoved(s.ops, o, Over, ns, all);
      TotalDrop(Pending(s.ops, ns, all), o);
      UsedInsert(s.files, row, f, ns);
      assert Within(s, ns, all);
    }
  }

  /** Aborting a session that a finalize has claimed keeps what is promised covered exactly
      when nothing was promised: there is no quota or nothing to insert, or, looking only at
      operations past their guard, the finalize has not passed it. */
  lemma AbortBusySafe(s: State, o: Id, all: bool)
    requires Safe(s, all) && o in s.ops && s.ops[o].phase.Holding? && !s.ops[o].instant
    ensures Safe(Apply(s, AbortBusy(o)), all) <==>
            s.quota <= 0 || s.ops[o].phase.bytes == 0 || !Promised(s.ops[o].phase, all)
  {
    var s' := Apply(s, AbortBusy(o));
    forall ns ensures Within(s', ns, all) { assert Within(s, ns, all); }
    assert CurrentOf(s'.reservations, o) == 0;
  }

  lemma StepSafe(s: State, a: Action, all: bool)
    requires Safe(s, all) && Reserving(a)
    ensures Safe(Apply(s, a), all)
  {
    if Apply(s, a) != s {
      match a
      case Reserve(o, bytes, ok) =>
        if bytes >= 0 && ok && Granted(s, o, bytes) {
          HoldSafe(s, o, bytes, s.ops[o].instant, all);
        } else {
          OverSafe(s, o, all);
        }
      case Adjust(o, size, ok) =>
        if ok && Granted(s, o, size) { HoldSafe(s, o, size, true, all); } else { OverSafe(s, o, all); }
      case Insert(o, row) => InsertSafe(s, o, row, all);
      case Fail(o) => OverSafe(s, o, all);
      case Release(o) => forall ns ensures Within(Apply(s, a), ns, all) { assert Within(s, ns, all); }
      case Remove(row) =>
        forall ns ensures Within(Apply(s, a), ns, all) {
          UsedFlip(s.files, row, s.files[row].(deletedAt := Some(0)), ns);
          assert Within(s, ns, all);
        }
    }
  }

  /** The abort does not fall between the guard and the insert of what was guarded. */
  ghost predicate Timely(s: State, a: Action) {
    a.AbortBusy? && a.o in s.ops && s.ops[a.o].phase.Holding? && s.ops[a.o].phase.guarded ==>
    s.ops[a.o].phase.bytes == 0
  }

  /** Neither restore nor copy, and every abort of a claimed session before its guard. */
  ghost predicate Guarded(s: State, actions: seq<Action>) {
    forall i | 0 <= i < |actions| ::
      !actions[i].Restore? && !actions[i].Copy? && Timely(Run(s, actions[..i]), actions[i])
  }

  /** No namespace holds more than the quota. */
  ghost predicate NeverExceeded(s: State, quota: int) { quota > 0 ==> forall ns :: Used(s.files, ns) <= quota }

  lemma SafeFits(s: State, all: bool)
    requires Safe(s, all)
    ensures NeverExceeded(s, s.quota)
  {
    forall ns ensures s.quota > 0 ==> Used(s.files, ns) <= s.quota { assert Within(s, ns, all); }
  }

  lemma {:induction false} SameQuota(s: State, actions: seq<Action>)
    ensures Run(s, actions).quota == s.quota
    decreases |actions|
  {
    if actions != [] { SameQuota(s, actions[..|actions| - 1]); }
  }

  /** No interleaving of reserving operations exceeds the quota, not even counting what the
      operations under way may still insert. */
  lemma {:induction false} RunSafe(s: State, actions: seq<Action>)
    requires Safe(s, true) && forall a | a in actions :: Reserving(a)
    ensures Safe(Run(s, actions), true) && NeverExceeded(Run(s, actions), s.quota)
    decreases |actions|
  {
    if actions != [] {
      RunSafe(s, actions[..|actions| - 1]);
      StepSafe(Run(s, actions[..|actions| - 1]), actions[|actions| - 1], true);
    }
    SameQuota(s, actions);
    SafeFits(Run(s, actions), true);
  }

  /** Aborting claimed sessions before their guard does no harm either: used bytes, and what
      operations past their guard may still insert, never exceed the quota. */
  lemma {:induction false} RunWithin(s: State, actions: seq<Action>)
    requires Safe(s, false) && Guarded(s, actions)
    ensures Safe(Run(s, actions), false) && NeverExceeded(Run(s, actions), s.quota)
    decreases |actions|
  {
    if actions != [] {
      var n := |actions| - 1;
      var before, a := Run(s, actions[..n]), actions[n];
      assert forall i | 0 <= i < n :: actions[..n][..i] == actions[..i];
      RunWithin(s, actions[..n]);
      if a.AbortBusy? {
        if Apply(before, a) != before { AbortBusySafe(before, a.o, false); }
      } else {
        StepSafe(before, a, false);
      }
    }
    SameQuota(s, actions);
    SafeFits(Run(s, actions), false);
  }

  // ---------- what is let in ----------

  /** A first reservation is made exactly when there is room beside everything used and held. */
  lemma ReservesIff(s: State, o: Id, bytes: nat)
    requires o in s.ops && s.ops[o].phase.Waiting? && o !in s.reservations && s.quota > 0 && bytes > 0
    ensures var s', ns := Apply(s, Reserve(o, bytes, true)), s.ops[o].ns;
            if Used(s.files, ns) + Held(s.reservations, ns) + bytes <= s.quota
            then s'.ops[o].phase == Holding(bytes, s.ops[o].instant)
                 && s'.reservations == s.reservations[o := Reservation(ns, bytes)]
            else s'.ops[o].phase.Over? && s'.reservations == s.reservations
  {
  }

  /** An upload for which there is room goes through: its row is there with its size, its bytes
      are in use, and nothing is held for it any more. */
  lemma UploadGoesThrough(s: State, o: Id, size: nat, row: Id)
    requires o in s.ops && s.ops[o].phase.Waiting? && !s.ops[o].instant && o !in s.reservations && row !in s.files
    requires s.quota > 0 && size > 0 && Used(s.files, s.ops[o].ns) + Held(s.reservations, s.ops[o].ns) + size <= s.quota
    ensures var s' := Apply(Apply(Apply(Apply(s, Reserve(o, size, true)), Adjust(o, size, true)), Insert(o, row)),
                            Release(o));
            && row in s'.files && s'.files[row].size == size && s'.files[row].ns == s.ops[o].ns && Active(s'.files[row])
            && UsedGrows(s.files, s'.files, s.ops[o].ns, size)
            && s'.reservations == s.reservations && s'.ops[o].phase.Over?
  {
    ReservesIff(s, o, size);
    var s1, ns := Apply(s, Reserve(o, size, true)), s.ops[o].ns;
    HeldBeside(s.reservations, o, ns, size);
    GuardPasses(s1, o, size);
    forall n ensures Used(s.files[row := RowOf(ns, size)], n) == Used(s.files, n) + if n == ns then size else 0 {
      UsedInsert(s.files, row, RowOf(ns, size), n);
    }
    assert s.reservations[o := Reservation(ns, size)] - {o} == s.reservations;
  }

  /** The guard lets through what is held already. */
  lemma GuardPasses(s: State, o: Id, size: nat)
    requires o in s.ops && s.ops[o].phase == Holding(size, false) && s.quota > 0 && size > 0
    requires o in s.reservations && s.reservations[o] == Reservation(s.ops[o].ns, size)
    requires Used(s.files, s.ops[o].ns) + Held(s.reservations, s.ops[o].ns) <= s.quota
    ensures Apply(s, Adjust(o, size, true)) == Step(s, o, Holding(size, true))
  {
    assert s.reservations[o := Reservation(s.ops[o].ns, size)] == s.reservations;
  }

  lemma HeldBeside(reservations: Reservations, o: Id, ns: string, size: nat)
    requires o !in reservations
    ensures Held(reservations[o := Reservation(ns, size)], ns) == Held(reservations, ns) + size
  {
    TotalUpdate(Holdings(reservations, ns), o, size);
    assert Holdings(reservations[o := Reservation(ns, size)], ns) == Holdings(reservations, ns)[o := size];
  }

  // ---------- the operations that reserve nothing ----------

  /** Restoring a row stays within the quota exactly when there happens to be room. */
  lemma RestoreWithin(s: State, row: Id)
    requires Safe(s, true) && s.quota > 0 && row in s.files && !Active(s.files[row])
    ensures var ns := s.files[row].ns;
            Within(Apply(s, Restore(row)), ns, true) <==>
            Used(s.files, ns) + Unspent(s, ns, true) + s.files[row].size <= s.quota
  {
    UsedFlip(s.files, row, s.files[row].(deletedAt := None), s.files[row].ns);
  }

  /** So does a copy. */
  lemma CopyWithin(s: State, row: Id, from: Id)
    requires Safe(s, true) && s.quota > 0 && row !in s.files && from in s.files && Active(s.files[from])
    ensures var ns := s.files[from].ns;
            Within(Apply(s, Copy(row, from)), ns, true) <==>
            Used(s.files, ns) + Unspent(s, ns, true) + s.files[from].size <= s.quota
  {
    UsedInsert(s.files, row, s.files[from], s.files[from].ns);
  }

  /** Aborting a session between the guard of its finalize and the insert gives its room away
      while its row is still to come: whatever was held, a second upload may be granted the
      same room, and both are inserted. */
  lemma AbortOvershoots(size: nat)
    requires size > 0
    ensures var s0 := State(map[], map[], map[0 := Op("n", false, Waiting), 1 := Op("n", false, Waiting)], size);
            var s3 := Apply(Apply(Apply(s0, Reserve(0, size, true)), Adjust(0, size, true)), AbortBusy(0));
            var s5 := Apply(Apply(s3, Reserve(1, size, true)), Adjust(1, size, true));
            var s7 := Apply(Apply(s5, Insert(0, 0)), Insert(1, 1));
            Safe(s0, true) && Used(s7.files, "n") == 2 * size
  {
    var s0 := State(map[], map[], map[0 := Op("n", false, Waiting), 1 := Op("n", false, Waiting)], size);
    forall ns ensures Within(s0, ns, true) {
      assert Pending(s0.ops, ns, true) == map[] && Sizes(s0.files, ns) == map[];
    }
    var s3 := Apply(Apply(Apply(s0, Reserve(0, size, true)), Adjust(0, size, true)), AbortBusy(0));
    FirstAborted(s0, size);
    SecondGranted(s3, size);
    BothInserted(Apply(Apply(s3, Reserve(1, size, true)), Adjust(1, size, true)), size);
  }

  lemma BothInserted(s: State, size: nat)
    requires s.files == map[]
    requires s.ops == map[0 := Op("n", false, Holding(size, true)), 1 := Op("n", false, Holding(size, true))]
    ensures Used(Apply(Apply(s, Insert(0, 0)), Insert(1, 1)).files, "n") == 2 * size
  {
    var s' := Apply(s, Insert(0, 0));
    assert Sizes(map[], "n") == map[];
    UsedInsert(map[], 0, RowOf("n", size), "n");
    UsedInsert(s'.files, 1, RowOf("n", size), "n");
  }

  lemma FirstAborted(s0: State, size: nat)
    requires size > 0
    requires s0 == State(map[], map[], map[0 := Op("n", false, Waiting), 1 := Op("n", false, Waiting)], size)
    ensures Apply(Apply(Apply(s0, Reserve(0, size, true)), Adjust(0, size, true)), AbortBusy(0))
              == Step(s0, 0, Holding(size, true))
  {
    assert Sizes(map[], "n") == map[] && Holdings(map[], "n") == map[];
    var s1 := Apply(s0, Reserve(0, size, true));
    OnlyOne(s1.reservations, 0, size);
    var s2 := Apply(s1, Adjust(0, size, true));
    assert Apply(s2, AbortBusy(0)).reservations == map[];
  }

  lemma SecondGranted(s: State, size: nat)
    requires size > 0 && s.files == map[] && s.reservations == map[] && s.quota == size
    requires s.ops == map[0 := Op("n", false, Holding(size, true)), 1 := Op("n", false, Waiting)]
    ensures var s' := Apply(Apply(s, Reserve(1, size, true)), Adjust(1, size, true));
            s'.files == map[] && s'.ops == s.ops[1 := Op("n", false, Holding(size, true))]
  {
    assert Sizes(map[], "n") == map[] && Holdings(map[], "n") == map[];
    var s1 := Apply(s, Reserve(1, size, true));
    OnlyOne(s1.reservations, 1, size);
  }

  lemma OnlyOne(reservations: Reservations, o: Id, size: nat)
    requires reservations == map[o := Reservation("n", size)]
    ensures Held(reservations, "n") == size
  {
    TotalUpdate(map[], o, size);
    assert Holdings(reservations, "n") == map[][o := size];
  }
}
