// The few string operations of Go's strings and path/filepath packages the repository relies on.

module Text {
  /** Index of the last c, or -1. */
  function LastIndex(s: string, c: char): (r: int)
    ensures -1 <= r < |s|
    ensures r >= 0 ==> s[r] == c
    ensures forall j :: r < j < |s| ==> s[j] != c
  {
    if s == "" then -1
    else if s[|s| - 1] == c then |s| - 1
    else LastIndex(s[..|s| - 1], c)
  }

  predicate OccursAt(s: string, sub: string, i: int) {
    0 <= i && i + |sub| <= |s| && s[i..i + |sub|] == sub
  }

  predicate Contains(s: string, sub: string) {
    exists i | 0 <= i <= |s| :: OccursAt(s, sub, i)
  }

  /** The pieces of s between separators; always at least one piece. */
  function Split(s: string, c: char): (r: seq<string>)
    ensures |r| >= 1
  {
    if s == "" then [""]
    else if s[0] == c then [""] + Split(s[1..], c)
    else
      var rest := Split(s[1..], c);
      [[s[0]] + rest[0]] + rest[1..]
  }

  lemma {:induction false} SplitOne(s: string, c: char)
    requires c !in s
    ensures Split(s, c) == [s]
  {
    if s != "" {
      SplitOne(s[1..], c);
      assert [s[0]] + s[1..] == s;
    }
  }

  lemma {:induction false} SplitJoin(a: string, c: char, b: string)
    ensures Split(a + [c] + b, c) == Split(a, c) + Split(b, c)
  {
    var s := a + [c] + b;
    if a == "" {
      assert s[1..] == b;
      assert Split(a, c) == [""];
    } else {
      assert s[0] == a[0] && s[1..] == a[1..] + [c] + b;
      SplitJoin(a[1..], c, b);
      SplitStep(a, c);
      SplitStep(s, c);
      PrependToFirst(Split(a[1..], c), Split(b, c), a[0]);
    }
  }

  lemma SplitStep(s: string, c: char)
    requires s != ""
    ensures Split(s, c) == if s[0] == c then [""] + Split(s[1..], c) else Prepend(s[0], Split(s[1..], c))
  {
  }

  function Prepend(x: char, pieces: seq<string>): seq<string>
    requires pieces != []
  {
    [[x] + pieces[0]] + pieces[1..]
  }

  lemma PrependToFirst(left: seq<string>, right: seq<string>, x: char)
    requires left != []
    ensures Prepend(x, left + right) == Prepend(x, left) + right
    ensures [""] + (left + right) == ([""] + left) + right
  {
    assert (left + right)[1..] == left[1..] + right;
  }

  lemma {:induction false} PiecesHaveNoSeparator(s: string, c: char)
    ensures forall x :: x in Split(s, c) ==> c !in x
  {
    if s != "" {
      PiecesHaveNoSeparator(s[1..], c);
    }
  }

  /** A separator-free substring of s lies inside one piece of s, and conversely. */
  lemma {:induction false} ContainsByPieces(s: string, c: char, sub: string)
    requires c !in sub && sub != ""
    ensures Contains(s, sub) <==> exists x :: x in Split(s, c) && Contains(x, sub)
  {
    var k := LastIndex(s, c);
    if k < 0 {
      SplitOne(s, c);
      assert s in Split(s, c);
    } else {
      var a, b := s[..k], s[k + 1..];
      assert s == a + [c] + b;
      SplitJoin(a, c, b);
      SplitOne(b, c);
      ContainsByPieces(a, c, sub);
      assert b in Split(s, c);
      ContainsInHalves(a, c, b, sub);
    }
  }

  lemma OccurrenceContainsPosition(s: string, sub: string, i: int, k: int)
    requires OccursAt(s, sub, i) && i <= k < i + |sub|
    ensures s[k] in sub
  {
    assert s[i..i + |sub|][k - i] == s[k];
  }

  lemma SliceOfSlice(s: string, at: nat, n: nat, i: nat, k: nat)
    requires i + k <= n && at + n <= |s|
    ensures s[at..at + n][i..i + k] == s[at + i..at + i + k]
  {
    var whole, part := s[at..at + n], s[at + i..at + i + k];
    assert |whole[i..i + k]| == |part|;
    assert forall j :: 0 <= j < k ==> whole[i..i + k][j] == whole[i + j] == s[at + (i + j)] == part[j];
  }

  lemma OccursInWhole(s: string, at: nat, n: nat, sub: string, i: int)
    requires at + n <= |s| && 0 <= i && i + |sub| <= n
    ensures OccursAt(s[at..at + n], sub, i) <==> OccursAt(s, sub, at + i)
  {
    SliceOfSlice(s, at, n, i, |sub|);
  }

  lemma ContainsInHalves(a: string, c: char, b: string, sub: string)
    requires c !in sub && sub != ""
    ensures Contains(a + [c] + b, sub) <==> Contains(a, sub) || Contains(b, sub)
  {
    var s := a + [c] + b;
    assert s[0..0 + |a|] == a && s[|a| + 1..|a| + 1 + |b|] == b;
    if Contains(s, sub) {
      var i :| 0 <= i <= |s| && OccursAt(s, sub, i);
      if i + |sub| <= |a| {
        OccursInWhole(s, 0, |a|, sub, i);
      } else if i > |a| {
        OccursInWhole(s, |a| + 1, |b|, sub, i - |a| - 1);
      } else {
        OccurrenceContainsPosition(s, sub, i, |a|);
        assert false;
      }
    }
    if Contains(a, sub) {
      var i :| 0 <= i <= |a| && OccursAt(a, sub, i);
      OccursInWhole(s, 0, |a|, sub, i);
    }
    if Contains(b, sub) {
      var i :| 0 <= i <= |b| && OccursAt(b, sub, i);
      OccursInWhole(s, |a| + 1, |b|, sub, i);
    }
  }
}
