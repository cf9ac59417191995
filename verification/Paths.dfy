/** Slash-separated paths, as `strings.LastIndex`, `filepath.Base` and the manifest checks
    (internal/domain/upload.go:670-680) read them. */
module Paths {
  /** The position of the last slash, or -1. */
  function LastSlash(p: string): (i: int)
    ensures -1 <= i < |p|
    ensures i >= 0 ==> p[i] == '/'
    ensures forall j | i < j < |p| :: p[j] != '/'
  {
    if p == [] then -1
    else if p[|p| - 1] == '/' then |p| - 1
    else LastSlash(p[..|p| - 1])
  }

  /** The directory part: everything before the last slash, or nothing. */
  function Parent(p: string): string {
    var i := LastSlash(p);
    if i >= 0 then p[..i] else ""
  }

  function TrimSlashes(p: string): string {
    if p != "" && p[|p| - 1] == '/' then TrimSlashes(p[..|p| - 1]) else p
  }

  /** The last name of a path: what lies between its last two slashes, those at its end aside;
      "." for no path and "/" for one of slashes only. */
  ghost predicate LastName(p: string, name: string) {
    if p == "" then name == "."
    else if forall k | 0 <= k < |p| :: p[k] == '/' then name == "/"
    else exists i, j :: 0 <= i < j <= |p| && NameAt(p, i, j) && name == p[i..j]
  }

  ghost predicate NameAt(p: string, i: nat, j: nat)
    requires i < j <= |p|
  {
    && (i == 0 || p[i - 1] == '/') && (forall k | i <= k < j :: p[k] != '/') && forall k | j <= k < |p| :: p[k] == '/'
  }

  lemma {:induction false} TrimMeans(p: string)
    ensures TrimSlashes(p) <= p && (forall k | |TrimSlashes(p)| <= k < |p| :: p[k] == '/')
    ensures TrimSlashes(p) != "" ==> TrimSlashes(p)[|TrimSlashes(p)| - 1] != '/'
    decreases |p|
  {
    if p != "" && p[|p| - 1] == '/' { TrimMeans(p[..|p| - 1]); }
  }

  /** The last name of a path whose part before its trailing slashes is `q`. */
  lemma TrimmedName(p: string, q: string, i: int)
    requires q <= p && q != "" && q[|q| - 1] != '/' && forall k | |q| <= k < |p| :: p[k] == '/'
    requires -1 <= i < |q| && (i >= 0 ==> q[i] == '/') && forall k | i < k < |q| :: q[k] != '/'
    ensures LastName(p, q[i + 1..])
  {
    assert p[|q| - 1] == q[|q| - 1];
    assert NameAt(p, i + 1, |q|) && q[i + 1..] == p[i + 1..|q|];
  }

  lemma BaseIsLastName(p: string)
    ensures LastName(p, Base(p))
  {
    if p != "" {
      var q := TrimSlashes(p);
      TrimMeans(p);
      if q != "" { TrimmedName(p, q, LastSlash(q)); }
    }
  }

  /** filepath.Base. */
  function Base(p: string): string {
    if p == "" then "."
    else
      var q := TrimSlashes(p);
      if q == "" then "/" else q[LastSlash(q) + 1..]
  }
}
