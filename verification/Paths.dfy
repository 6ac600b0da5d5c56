// Relative paths as Go strings: slash-separated, already cleaned, never absolute.

module Options {
  datatype Option<+T> = None | Some(value: T)

  datatype Result<+T, +E> = Success(value: T) | Failure(error: E)
}

module Paths {
  type Path = string

  /** p lies strictly below q: the test `HasPrefix(p, q + "/")`. */
  predicate Under(p: Path, q: Path) {
    |q| < |p| && p[..|q|] == q && p[|q|] == '/'
  }

  predicate AtOrUnder(p: Path, q: Path) {
    p == q || Under(p, q)
  }

  /** Every directory a file at p sits in. */
  function Ancestors(p: Path): set<Path> {
    set i | 0 <= i < |p| && p[i] == '/' :: p[..i]
  }

  /** Number of separators, the sort key of the reconciliation order. */
  function Depth(p: Path): nat {
    if p == "" then 0 else Depth(p[..|p| - 1]) + if p[|p| - 1] == '/' then 1 else 0
  }

  /** Some prefix in the list covers p; an exact match does not count. */
  predicate UnderAny(p: Path, prefixes: seq<Path>) {
    exists q :: q in prefixes && Under(p, q)
  }

  lemma AncestorsAreAbove(p: Path, q: Path)
    ensures q in Ancestors(p) <==> Under(p, q)
  {
    if Under(p, q) {
      assert p[..|q|] == q && p[|q|] == '/';
      assert p[..|q|] in Ancestors(p);
    }
  }

  lemma UnderTransitive(p: Path, q: Path, r: Path)
    requires Under(p, q) && Under(q, r)
    ensures Under(p, r)
  {
    assert p[..|r|] == p[..|q|][..|r|];
    assert p[|r|] == p[..|q|][|r|];
  }

  /** Two directories above one path are themselves one above the other. */
  lemma AboveComparable(p: Path, q: Path, r: Path)
    requires AtOrUnder(p, q) && AtOrUnder(p, r)
    ensures q == r || Under(q, r) || Under(r, q)
  {
    assert p[..|q|] == q && p[..|r|] == r;
    if |q| < |r| {
      assert r[..|q|] == p[..|q|] && r[|q|] == p[|q|];
    } else if |r| < |q| {
      assert q[..|r|] == p[..|r|] && q[|r|] == p[|r|];
    }
  }

  lemma {:induction false} DepthOfPrefix(p: Path, n: nat)
    requires n <= |p|
    ensures Depth(p[..n]) <= Depth(p)
    ensures n < |p| && p[n] == '/' ==> Depth(p[..n]) < Depth(p)
    decreases |p| - n
  {
    if n < |p| {
      DepthOfPrefix(p, n + 1);
      assert p[..n + 1][..n] == p[..n];
    } else {
      assert p[..n] == p;
    }
  }

  lemma UnderIsDeeper(p: Path, q: Path)
    requires Under(p, q)
    ensures Depth(q) < Depth(p)
  {
    DepthOfPrefix(p, |q|);
  }

  lemma UnderAnyStep(p: Path, prefixes: seq<Path>, q: Path)
    ensures UnderAny(p, prefixes + [q]) <==> UnderAny(p, prefixes) || Under(p, q)
  {
    if UnderAny(p, prefixes) {
      var r :| r in prefixes && Under(p, r);
      assert r in prefixes + [q];
    }
    assert q in prefixes + [q];
  }

  lemma FirstIsIn<T>(s: seq<T>)
    ensures s == [] || exists x :: x in s
  {
    if s != [] { assert s[0] in s; }
  }
}
