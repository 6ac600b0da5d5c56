// internal/config/exclude.go: which relative paths neither side synchronises.

module Exclude {
  import opened Paths
  import opened Text

  /** filepath.Match for patterns built from literals, '*' and '?'. */
  predicate Match(pattern: string, s: string)
    decreases |pattern| + |s|
  {
    if pattern == "" then s == ""
    else if pattern[0] == '*' then
      Match(pattern[1..], s) || (s != "" && s[0] != '/' && Match(pattern, s[1..]))
    else if s == "" then false
    else if pattern[0] == '?' then s[0] != '/' && Match(pattern[1..], s[1..])
    else s[0] == pattern[0] && Match(pattern[1..], s[1..])
  }

  predicate MatchesAny(component: string, patterns: seq<string>) {
    exists p :: p in patterns && Match(p, component)
  }

  /** Excluded for component patterns. */
  predicate Excluded(patterns: seq<string>, rel: Path) {
    rel != "" && rel != "." && exists c :: c in Split(rel, '/') && MatchesAny(c, patterns)
  }

  /** The search as the repository runs it, component by component. */
  method Search(patterns: seq<string>, rel: Path) returns (found: bool)
    ensures found == Excluded(patterns, rel)
  {
    if rel == "" || rel == "." {
      return false;
    }
    var components := Split(rel, '/');
    for i := 0 to |components|
      invariant forall k :: 0 <= k < i ==> !MatchesAny(components[k], patterns)
    {
      for j := 0 to |patterns|
        invariant forall k :: 0 <= k < j ==> !Match(patterns[k], components[i])
      {
        if Match(patterns[j], components[i]) {
          assert patterns[j] in patterns && components[i] in components;
          return true;
        }
      }
    }
    return false;
  }

  /** Everything below an excluded directory is excluded, so pruning the walk there loses nothing. */
  lemma ExcludedBelow(patterns: seq<string>, p: Path, q: Path)
    requires Excluded(patterns, q) && Under(p, q)
    ensures Excluded(patterns, p)
  {
    var rest := p[|q| + 1..];
    assert p == q + ['/'] + rest;
    SplitJoin(q, '/', rest);
    var c :| c in Split(q, '/') && MatchesAny(c, patterns);
    assert c in Split(p, '/');
  }

  const MARK := ".sync-conflict-"
  const CONFLICT_PATTERN := "*.sync-conflict-*"

  lemma {:induction false} StarSkips(rest: string, s: string, k: nat)
    requires k <= |s| && '/' !in s[..k]
    requires Match(rest, s[k..])
    ensures Match("*" + rest, s)
  {
    assert ("*" + rest)[1..] == rest;
    if k > 0 {
      assert s[1..][k - 1..] == s[k..];
      assert forall x :: x in s[1..][..k - 1] ==> x in s[..k];
      assert s[0] in s[..k];
      StarSkips(rest, s[1..], k - 1);
    } else {
      assert s[k..] == s;
    }
  }

  lemma {:induction false} StarStops(rest: string, s: string) returns (k: nat)
    requires Match("*" + rest, s)
    ensures k <= |s| && Match(rest, s[k..])
  {
    assert ("*" + rest)[1..] == rest;
    if Match(rest, s) {
      k := 0;
      assert s[0..] == s;
    } else {
      var j := StarStops(rest, s[1..]);
      k := j + 1;
      assert s[1..][j..] == s[k..];
    }
  }

  predicate Literal(s: string) {
    '*' !in s && '?' !in s
  }

  lemma {:induction false} LiteralIsPrefix(lit: string, rest: string, s: string)
    requires Literal(lit)
    ensures Match(lit + rest, s) <==> |lit| <= |s| && s[..|lit|] == lit && Match(rest, s[|lit|..])
  {
    if lit == "" {
      assert lit + rest == rest && s[0..] == s;
    } else if s != "" {
      assert (lit + rest)[1..] == lit[1..] + rest;
      LiteralIsPrefix(lit[1..], rest, s[1..]);
      if |lit| <= |s| {
        assert s[1..][..|lit| - 1] == s[..|lit|][1..];
        assert s[1..][|lit| - 1..] == s[|lit|..];
        assert s[..|lit|] == lit <==> s[0] == lit[0] && s[..|lit|][1..] == lit[1..];
      }
    }
  }

  lemma MarkerGivesMatch(c: string, k: nat)
    requires '/' !in c && OccursAt(c, MARK, k)
    ensures Match(CONFLICT_PATTERN, c)
  {
    var tail := c[k + |MARK|..];
    assert forall x :: x in tail ==> x in c;
    assert tail[..|tail|] == tail && tail[|tail|..] == "";
    StarSkips("", tail, |tail|);
    assert "*" + "" == "*";
    AtMarker(c, k, "*");
    assert forall x :: x in c[..k] ==> x in c;
    StarSkips(MARK + "*", c, k);
    assert CONFLICT_PATTERN == "*" + (MARK + "*");
  }

  lemma AtMarker(c: string, k: nat, rest: string)
    requires k <= |c|
    ensures Match(MARK + rest, c[k..]) <==> OccursAt(c, MARK, k) && Match(rest, c[k + |MARK|..])
  {
    LiteralIsPrefix(MARK, rest, c[k..]);
    if k + |MARK| <= |c| {
      assert c[k..][..|MARK|] == c[k..k + |MARK|];
      assert c[k..][|MARK|..] == c[k + |MARK|..];
    }
  }

  /** The default pattern recognises exactly the components carrying the conflict marker. */
  lemma ConflictPatternIsMarker(c: string)
    requires '/' !in c
    ensures Match(CONFLICT_PATTERN, c) <==> Contains(c, MARK)
  {
    if Match(CONFLICT_PATTERN, c) {
      assert CONFLICT_PATTERN == "*" + (MARK + "*");
      var k := StarStops(MARK + "*", c);
      AtMarker(c, k, "*");
    }
    if Contains(c, MARK) {
      var k :| 0 <= k <= |c| && OccursAt(c, MARK, k);
      MarkerGivesMatch(c, k);
    }
  }

  /** With the default exclusion list, a path is excluded whenever the marker occurs anywhere in it. */
  lemma MarkedIsExcluded(patterns: seq<string>, p: Path)
    requires CONFLICT_PATTERN in patterns
    requires Contains(p, MARK)
    ensures Excluded(patterns, p)
  {
    ContainsByPieces(p, '/', MARK);
    PiecesHaveNoSeparator(p, '/');
    var c :| c in Split(p, '/') && Contains(c, MARK);
    ConflictPatternIsMarker(c);
    assert MatchesAny(c, patterns);
    var i :| 0 <= i <= |p| && OccursAt(p, MARK, i);
  }
}
