/** Reference counts: what `content_blobs.ref_count` should say about the `files` table,
    and the two updates the stores make to it. */
module Refs {
  import opened Types
  import opened Forest

  type Blobs = map<Sha, Blob>

  /** The rows naming a hash, trashed ones included (ListFilesByBlob). */
  ghost function Namers(files: Files, s: Sha): set<Id> {
    set x | x in files && files[x].sha == Some(s)
  }

  ghost function Count(files: Files, s: Sha): nat { |Namers(files, s)| }

  /** `UPDATE ... ref_count + 1`; no row, no change. */
  function Incr(blobs: Blobs, s: Sha): Blobs {
    if s in blobs then blobs[s := blobs[s].(refs := blobs[s].refs + 1)] else blobs
  }

  /** `UPDATE ... MAX(0, ref_count - 1)`. */
  function Decr(blobs: Blobs, s: Sha): Blobs {
    if s in blobs then blobs[s := blobs[s].(refs := if blobs[s].refs > 0 then blobs[s].refs - 1 else 0)]
    else blobs
  }

  /** Every hash a row names has a blob. */
  ghost predicate Known(files: Files, blobs: Blobs) {
    forall x | x in files && files[x].sha.Some? :: files[x].sha.value in blobs
  }

  /** No count is too low: the invariant that keeps content from being deleted early. */
  ghost predicate Covered(files: Files, blobs: Blobs) {
    Known(files, blobs) && forall s | s in blobs :: Count(files, s) <= blobs[s].refs
  }

  /** Every count is exact: what the consistency scanner checks. */
  ghost predicate Conserved(files: Files, blobs: Blobs) {
    Known(files, blobs) && forall s | s in blobs :: Count(files, s) == blobs[s].refs
  }

  /** The same blobs, each with the same surplus of its count over its rows. */
  ghost predicate SameSlack(f0: Files, b0: Blobs, f1: Files, b1: Blobs) {
    && b0.Keys == b1.Keys
    && forall s | s in b0 ::
         && b1[s].refs - Count(f1, s) == b0[s].refs - Count(f0, s)
         && b1[s].path == b0[s].path && b1[s].size == b0[s].size
  }

  lemma CountInsert(files: Files, x: Id, f: File, s: Sha)
    requires x !in files
    ensures Count(files[x := f], s) == Count(files, s) + if f.sha == Some(s) then 1 else 0
  {
    var after := Namers(files[x := f], s);
    if f.sha == Some(s) {
      assert after == Namers(files, s) + {x};
    } else {
      assert after == Namers(files, s);
    }
  }

  lemma CountRemove(files: Files, x: Id, s: Sha)
    requires x in files
    ensures Count(files, s) == Count(files - {x}, s) + if files[x].sha == Some(s) then 1 else 0
  {
    var rest := files - {x};
    CountInsert(rest, x, files[x], s);
    assert rest[x := files[x]] == files;
  }

  /** Rows that keep their hash keep every count. */
  lemma CountSame(f0: Files, f1: Files, s: Sha)
    requires f0.Keys == f1.Keys && forall x | x in f0 :: f0[x].sha == f1[x].sha
    ensures Count(f0, s) == Count(f1, s)
  {
    assert Namers(f0, s) == Namers(f1, s);
  }

  /** Splitting a table splits its counts: a deletion lowers each count by its
      multiplicity among the deleted rows. */
  lemma CountSplit(files: Files, gone: set<Id>, s: Sha)
    ensures Count(files, s) == Count(files - gone, s) + |Namers(files, s) * gone|
  {
    assert Namers(files, s) == Namers(files - gone, s) + Namers(files, s) * gone;
  }

  /** So an operation that removes rows at equal surplus has lowered every count by exactly
      the number of removed rows naming it. */
  lemma LoweredByMultiplicity(files: Files, blobs: Blobs, gone: set<Id>, blobs': Blobs, s: Sha)
    requires SameSlack(files, blobs, files - gone, blobs') && s in blobs
    ensures blobs'[s].refs == blobs[s].refs - |Namers(files, s) * gone|
  {
    CountSplit(files, gone, s);
  }

  /** Deleting a row and lowering its hash's count keeps the surplus of every blob. */
  lemma RemoveKeepsSlack(files: Files, blobs: Blobs, x: Id)
    requires x in files && Covered(files, blobs)
    ensures var b := if files[x].sha.Some? then Decr(blobs, files[x].sha.value) else blobs;
            SameSlack(files, blobs, files - {x}, b) && Covered(files - {x}, b)
    ensures files[x].sha.Some? ==> files[x].sha.value in blobs && blobs[files[x].sha.value].refs > 0
  {
    forall s | s in blobs
      ensures Count(files, s) == Count(files - {x}, s) + if files[x].sha == Some(s) then 1 else 0
    {
      CountRemove(files, x, s);
    }
  }

  /** Inserting a row and raising its hash's count does too. */
  lemma InsertKeepsSlack(files: Files, blobs: Blobs, x: Id, f: File)
    requires x !in files && (f.sha.Some? ==> f.sha.value in blobs)
    ensures SameSlack(files, blobs, files[x := f], if f.sha.Some? then Incr(blobs, f.sha.value) else blobs)
  {
    forall s | s in blobs
      ensures Count(files[x := f], s) == Count(files, s) + if f.sha == Some(s) then 1 else 0
    {
      CountInsert(files, x, f, s);
    }
  }

  /** An operation that keeps every surplus keeps both invariants. */
  lemma SlackKeepsInvariants(f0: Files, b0: Blobs, f1: Files, b1: Blobs)
    requires SameSlack(f0, b0, f1, b1) && Known(f1, b1)
    ensures Covered(f0, b0) ==> Covered(f1, b1)
    ensures Conserved(f0, b0) ==> Conserved(f1, b1)
  {
  }

  lemma CoveredCut(f0: Files, b0: Blobs, f1: Files, b1: Blobs)
    requires Covered(f0, b0) && SameSlack(f0, b0, f1, b1)
    requires f1.Keys <= f0.Keys && forall x | x in f1 :: f1[x].sha == f0[x].sha
    ensures Covered(f1, b1)
  {
  }
}
