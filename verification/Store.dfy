// internal/state/state.go: the table of what was last synchronised, and the conflict table.

module Like {
  import opened Paths

  /** ASCII case folding, as SQLite's LIKE applies it. */
  function Fold(c: char): char {
    if 'A' <= c <= 'Z' then c - 'A' + 'a' else c
  }

  function EscapeChar(c: char): string {
    if c == '%' || c == '_' || c == '\\' then ['\\', c] else [c]
  }

  function EscapeLike(s: string): string {
    if s == "" then "" else EscapeLike(s[..|s| - 1]) + EscapeChar(s[|s| - 1])
  }

  method Escape(s: string) returns (out: string)
    ensures out == EscapeLike(s)
  {
    out := "";
    for i := 0 to |s|
      invariant out == EscapeLike(s[..i])
    {
      assert s[..i + 1][..i] == s[..i];
      if s[i] == '%' || s[i] == '_' || s[i] == '\\' {
        out := out + ['\\', s[i]];
      } else {
        out := out + [s[i]];
      }
    }
    assert s[..|s|] == s;
  }

  /** `s LIKE pattern ESCAPE '\'`. */
  predicate LikeMatch(pattern: string, s: string)
    decreases |pattern| + |s|
  {
    if pattern == "" then s == ""
    else if pattern[0] == '\\' then
      |pattern| >= 2 && s != "" && Fold(pattern[1]) == Fold(s[0]) && LikeMatch(pattern[2..], s[1..])
    else if pattern[0] == '%' then
      LikeMatch(pattern[1..], s) || (s != "" && LikeMatch(pattern, s[1..]))
    else
      s != "" && (pattern[0] == '_' || Fold(pattern[0]) == Fold(s[0])) && LikeMatch(pattern[1..], s[1..])
  }

  /** x starts with p and a slash, letters compared without case. */
  predicate CaseUnder(x: Path, p: Path) {
    |p| < |x| && x[|p|] == '/' && forall i :: 0 <= i < |p| ==> Fold(x[i]) == Fold(p[i])
  }

  lemma {:induction false} PercentMatchesAll(s: string)
    ensures LikeMatch("%", s)
  {
    assert "%"[1..] == "";
    if s != "" {
      PercentMatchesAll(s[1..]);
    }
  }

  /** An escaped text, whatever wildcards it holds, consumes exactly its own length, up to case. */
  lemma {:induction false} EscapedMatchesItself(p: string, rest: string, s: string)
    ensures LikeMatch(EscapeLike(p) + rest, s) <==>
      |p| <= |s| && (forall i :: 0 <= i < |p| ==> Fold(s[i]) == Fold(p[i])) && LikeMatch(rest, s[|p|..])
  {
    if p == "" {
      assert EscapeLike(p) + rest == rest && s[0..] == s;
    } else {
      var q, c := p[..|p| - 1], p[|p| - 1];
      assert EscapeLike(p) + rest == EscapeLike(q) + (EscapeChar(c) + rest);
      EscapedMatchesItself(q, EscapeChar(c) + rest, s);
      if |q| <= |s| {
        OneEscaped(c, rest, s[|q|..]);
        if |p| <= |s| {
          assert s[|q|..][1..] == s[|p|..];
        }
      }
    }
  }

  lemma OneEscaped(c: char, rest: string, s: string)
    ensures LikeMatch(EscapeChar(c) + rest, s) <==> s != "" && Fold(s[0]) == Fold(c) && LikeMatch(rest, s[1..])
  {
    var pattern := EscapeChar(c) + rest;
    if c == '%' || c == '_' || c == '\\' {
      assert pattern[2..] == rest;
    } else {
      assert pattern[1..] == rest;
    }
  }

  /** The pattern of DeleteSubtree and Subtree is a prefix test, except that it ignores ASCII case. */
  lemma SubtreePatternIsPrefixTest(p: Path, x: Path)
    ensures LikeMatch(EscapeLike(p) + "/%", x) <==> CaseUnder(x, p)
  {
    EscapedMatchesItself(p, "/%", x);
    if |p| < |x| {
      var tail := x[|p|..];
      PercentMatchesAll(tail[1..]);
      assert "/%"[1..] == "%";
    }
  }

  lemma UnderIsCaseUnder(x: Path, p: Path)
    requires Under(x, p)
    ensures CaseUnder(x, p)
  {
    assert forall i :: 0 <= i < |p| ==> x[i] == x[..|p|][i];
  }
}

module Store {
  import opened Digests
  import opened Like
  import opened Nodes
  import opened Options
  import opened Paths

  datatype Status = Synced | Conflicted | Errored

  /** The last known state of a path on one side; the time of recording is not part of the model. */
  datatype Entry = Entry(isDir: bool, size: nat, mtime: Instant, perms: Perms, digest: Digest, status: Status) {
    function AsStat(): Stat {
      Stat(size, mtime, perms, isDir, RegularKind)
    }
  }

  type Rows = map<Path, Entry>

  datatype Conflict = Conflict(shaA: string, shaB: string, resolution: Option<string>)

  type Conflicts = map<Path, Conflict>

  /** The WHERE clause `path = ? OR path LIKE ? ESCAPE '\'`. */
  predicate Selected(x: Path, p: Path) {
    x == p || LikeMatch(EscapeLike(p) + "/%", x)
  }

  /** The same test, without the pattern. */
  predicate Covered(x: Path, p: Path) {
    x == p || CaseUnder(x, p)
  }

  lemma SelectedIsCovered(x: Path, p: Path)
    ensures Selected(x, p) <==> Covered(x, p)
  {
    SubtreePatternIsPrefixTest(p, x);
  }

  function DeleteSubtree(rows: Rows, p: Path): Rows {
    map x | x in rows && !Covered(x, p) :: rows[x]
  }

  function Subtree(rows: Rows, p: Path): Rows {
    map x | x in rows && Covered(x, p) :: rows[x]
  }

  /**
   * DeleteSubtree forgets exactly the subtree, as its comment promises, if and only if no other
   * recorded path sits in a directory whose name differs from p by letter case alone.
   */
  lemma DeleteSubtreeExact(rows: Rows, p: Path)
    ensures DeleteSubtree(rows, p) == (map x | x in rows && !AtOrUnder(x, p) :: rows[x]) <==>
      forall x :: x in rows && CaseUnder(x, p) ==> Under(x, p)
  {
    var exact := map x | x in rows && !AtOrUnder(x, p) :: rows[x];
    forall x | x in rows && Under(x, p) ensures Covered(x, p) {
      UnderIsCaseUnder(x, p);
    }
    if DeleteSubtree(rows, p) == exact {
      forall x | x in rows && CaseUnder(x, p) ensures Under(x, p) {
        assert x !in DeleteSubtree(rows, p);
        assert x !in exact;
      }
    } else {
      assert exists x :: x in rows && (x in exact) != (x in DeleteSubtree(rows, p));
    }
  }

  /** Two directories that differ by case: removing one forgets what is recorded below the other. */
  lemma DeleteSubtreeForgetsOtherCase(entry: Entry)
    ensures "docs/x" !in DeleteSubtree(map["docs/x" := entry], "Docs")
    ensures !AtOrUnder("docs/x", "Docs")
  {
    assert CaseUnder("docs/x", "Docs");
    assert "docs/x"[0] == 'd' && "Docs"[0] == 'D';
  }

  function OpenConflict(c: Conflicts, p: Path, a: Digest, b: Digest): Conflicts {
    c[p := Conflict(DigestText(a), DigestText(b), None)]
  }

  function CloseConflict(c: Conflicts, p: Path, how: string): Conflicts {
    if p in c then c[p := c[p].(resolution := Some(how))] else c
  }

  function MarkStatus(rows: Rows, p: Path, status: Status): Rows {
    if p in rows then rows[p := rows[p].(status := status)] else rows
  }
}
