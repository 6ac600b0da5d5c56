// The names under which the losing version of a conflict is kept
// (conflictName in internal/engine/conflict.go, preservedDirName in internal/engine/delete.go).

module Names {
  import opened Events
  import opened Exclude
  import opened Paths
  import opened Text

  /** A time in layout 20060102-150405: fifteen characters, digits and one dash. */
  type Stamp = s: string | |s| == 15 && '/' !in s && '.' !in s witness "20260909-143012"

  function Dir(p: Path): string {
    var i := LastIndex(p, '/');
    if i < 0 then "." else p[..i]
  }

  function Base(p: Path): string {
    p[LastIndex(p, '/') + 1..]
  }

  function Ext(base: string): string {
    var i := LastIndex(base, '.');
    if i < 0 then "" else base[i..]
  }

  function Stem(base: string): string {
    base[..|base| - |Ext(base)|]
  }

  function Join(dir: string, name: string): Path {
    if dir == "." then name else dir + "/" + name
  }

  function Tag(side: Side, at: Stamp): (t: string)
    ensures |t| == 32
  {
    MARK + side.Name() + "-" + at
  }

  function ConflictName(rel: Path, side: Side, at: Stamp): Path {
    var base := Base(rel);
    var ext := Ext(base);
    Join(Dir(rel), Stem(base) + Tag(side, at) + ext)
  }

  function PreservedDirName(rel: Path, side: Side, at: Stamp): Path {
    rel + Tag(side, at)
  }

  /** A cleaned relative path has no empty component; its first component is not ".". */
  predicate Clean(p: Path) {
    Base(p) != "" && Dir(p) != "" && (Dir(p) == "." ==> '/' !in p)
  }

  /** Where the tag goes: before the extension of the last component. */
  function Cut(p: Path): (c: nat)
    ensures c <= |p|
  {
    |p| - |Ext(Base(p))|
  }

  /** All the proofs below need to know of a tag. */
  predicate TagLike(t: string) {
    |t| == 32 && t[0] == '.' && (forall i :: 1 <= i < 32 ==> t[i] != '.') && '/' !in t
  }

  lemma TagIsTagLike(side: Side, at: Stamp)
    ensures TagLike(Tag(side, at))
  {
    var tail := side.Name() + "-" + at;
    assert Tag(side, at) == MARK + tail;
    assert forall i :: 1 <= i < 15 ==> MARK[i] != '.';
    assert forall i :: 0 <= i < |tail| ==> tail[i] in side.Name() || tail[i] == '-' || tail[i] in at;
    assert forall i :: 15 <= i < 32 ==> Tag(side, at)[i] == tail[i - 15];
    assert '/' !in MARK;
  }

  lemma TagStartsWithMark(side: Side, at: Stamp)
    ensures |MARK| == 15 && Tag(side, at)[..|MARK|] == MARK
    ensures MARK[0] == '.' && forall i :: 1 <= i < |MARK| ==> MARK[i] != '.'
  {
  }

  lemma TagInjective(s1: Side, t1: Stamp, s2: Side, t2: Stamp)
    requires Tag(s1, t1) == Tag(s2, t2)
    ensures s1 == s2 && t1 == t2
  {
    assert s1.Name() == Tag(s1, t1)[15..16] && s2.Name() == Tag(s2, t2)[15..16];
    assert t1 == Tag(s1, t1)[17..] && t2 == Tag(s2, t2)[17..];
  }

  function Insert(p: string, c: nat, t: string): string
    requires c <= |p|
  {
    p[..c] + t + p[c..]
  }

  lemma Middle(p: string, m: nat, k: nat)
    requires m <= k <= |p|
    ensures p[m..][..k - m] == p[m..k]
  {
  }

  lemma Tail(p: string, m: nat, k: nat)
    requires m <= k <= |p|
    ensures p[m..][k - m..] == p[k..]
  {
  }

  lemma Front(p: string, m: nat, k: nat)
    requires m <= k <= |p|
    ensures p[..k] == p[..m] + p[m..k]
  {
  }

  lemma OneMore(p: string, i: nat)
    requires i < |p|
    ensures p[..i + 1] == p[..i] + [p[i]]
  {
  }

  lemma Glue(p: string, i: int, k: nat)
    requires -1 <= i < k <= |p|
    ensures p[i + 1..][..k - i - 1] == p[i + 1..k] && p[i + 1..][k - i - 1..] == p[k..]
    ensures p[..k] == p[..i + 1] + p[i + 1..k]
    ensures i >= 0 ==> p[..i + 1] == p[..i] + [p[i]]
  {
    Middle(p, i + 1, k);
    Tail(p, i + 1, k);
    Front(p, i + 1, k);
    if i >= 0 { OneMore(p, i); }
  }

  lemma BaseLength(rel: Path)
    ensures |Base(rel)| == |rel| - LastIndex(rel, '/') - 1
  {
    hide LastIndex;
  }

  lemma StemLength(base: string)
    ensures |Stem(base)| + |Ext(base)| == |base|
  {
    hide LastIndex;
  }

  lemma CutIs(rel: Path)
    ensures Cut(rel) == LastIndex(rel, '/') + 1 + |Stem(Base(rel))|
  {
    hide LastIndex, Base, Stem, Ext;
    BaseLength(rel);
    StemLength(Base(rel));
  }

  /** Directory, stem and extension sit side by side in the path. */
  lemma CutSplits(rel: Path)
    requires Clean(rel)
    ensures rel[..Cut(rel)] == (if LastIndex(rel, '/') < 0 then "" else Dir(rel) + ['/']) + Stem(Base(rel))
    ensures rel[Cut(rel)..] == Ext(Base(rel))
    ensures Cut(rel) > LastIndex(rel, '/')
  {
    hide Ext, Stem, Cut;
    var i := LastIndex(rel, '/');
    CutIs(rel);
    ExtIsTail(Base(rel));
    Glue(rel, i, Cut(rel));
  }

  lemma ExtIsTail(base: string)
    ensures base[|Stem(base)|..] == Ext(base) && base[..|Stem(base)|] == Stem(base)
    ensures |Ext(base)| <= |base|
  {
  }

  lemma JoinInsert(dir: string, stem: string, tag: string, ext: string)
    ensures dir + "/" + (stem + tag + ext) == ((dir + ['/']) + stem) + tag + ext
  {
  }

  /** Building the name from directory, stem and extension amounts to one insertion into the path. */
  lemma NameIsInsertion(rel: Path, side: Side, at: Stamp)
    requires Clean(rel)
    ensures ConflictName(rel, side, at) == Insert(rel, Cut(rel), Tag(side, at))
  {
    CutSplits(rel);
    var stem, ext, tag := Stem(Base(rel)), Ext(Base(rel)), Tag(side, at);
    JoinInsert(Dir(rel), stem, tag, ext);
    assert ConflictName(rel, side, at) == Join(Dir(rel), stem + tag + ext);
    if LastIndex(rel, '/') < 0 {
      assert rel[..Cut(rel)] == stem;
    }
  }

  /** i is the last slash of p and c its cut: what follows c is an extension, with one dot, at its start. */
  predicate Landmarks(p: string, i: int, c: nat) {
    && -1 <= i < c <= |p|
    && (i >= 0 ==> p[i] == '/')
    && (forall j :: i < j < |p| ==> p[j] != '/')
    && (c < |p| ==> p[c] == '.')
    && (forall j :: i < j < |p| && p[j] == '.' ==> j <= c && c < |p|)
  }

  lemma SliceAt(p: string, k: nat)
    requires k <= |p|
    ensures forall j :: k <= j < |p| ==> p[j] == p[k..][j - k]
  {
  }

  lemma ExtLength(base: string)
    ensures |Ext(base)| == if LastIndex(base, '.') < 0 then 0 else |base| - LastIndex(base, '.')
  {
    hide LastIndex;
  }

  lemma BaseAt(p: Path)
    ensures |Base(p)| == |p| - LastIndex(p, '/') - 1
    ensures forall j :: LastIndex(p, '/') < j < |p| ==> p[j] == Base(p)[j - LastIndex(p, '/') - 1]
  {
    hide LastIndex, Base;
    BaseLength(p);
    SliceAt(p, LastIndex(p, '/') + 1);
    BaseIs(p);
  }

  lemma BaseIs(p: Path)
    ensures LastIndex(p, '/') + 1 <= |p| && Base(p) == p[LastIndex(p, '/') + 1..]
  {
    hide LastIndex;
  }

  lemma CutFromEnd(p: Path)
    requires Clean(p)
    ensures Cut(p) == |p| - |Ext(Base(p))| && |Base(p)| > 0
  {
    hide LastIndex, Base, Ext, Dir;
  }

  lemma CleanLandmarks(p: Path)
    requires Clean(p)
    ensures Landmarks(p, LastIndex(p, '/'), Cut(p))
  {
    hide *;
    ExtLength(Base(p));
    BaseAt(p);
    CutFromEnd(p);
    LandmarksFrom(p, LastIndex(p, '/'), Base(p), LastIndex(Base(p), '.'));
  }

  lemma LandmarksFrom(p: string, i: int, base: string, d: int)
    requires -1 <= i < |p| - 1 && (i >= 0 ==> p[i] == '/') && forall j :: i < j < |p| ==> p[j] != '/'
    requires |base| == |p| - i - 1 && forall j :: i < j < |p| ==> p[j] == base[j - i - 1]
    requires -1 <= d < |base| && (d >= 0 ==> base[d] == '.') && forall j :: d < j < |base| ==> base[j] != '.'
    ensures Landmarks(p, i, if d < 0 then |p| else i + 1 + d)
  {
  }

  lemma LastIndexIs(s: string, c: char, i: int)
    requires -1 <= i < |s| && (i >= 0 ==> s[i] == c) && forall j :: i < j < |s| ==> s[j] != c
    ensures LastIndex(s, c) == i
  {
  }

  lemma InsertedChars(p: string, c: nat, t: string)
    requires c <= |p| && |t| == 32
    ensures |Insert(p, c, t)| == |p| + 32
    ensures forall j :: 0 <= j < |p| + 32 ==>
      Insert(p, c, t)[j] == if j < c then p[j] else if j < c + 32 then t[j - c] else p[j - 32]
  {
  }

  lemma InsertedLandmarks(p: string, i: int, c: nat, t: string)
    requires Landmarks(p, i, c) && TagLike(t)
    ensures LastIndex(Insert(p, c, t), '/') == i
    ensures LastIndex(Insert(p, c, t), '.') == if c < |p| then c + 32 else c
  {
    InsertedChars(p, c, t);
    LastIndexIs(Insert(p, c, t), '/', i);
    LastIndexIs(Insert(p, c, t), '.', if c < |p| then c + 32 else c);
  }

  lemma SavedDotAndSlash(p: Path, side: Side, at: Stamp)
    requires Clean(p)
    ensures LastIndex(ConflictName(p, side, at), '/') == LastIndex(p, '/')
    ensures LastIndex(ConflictName(p, side, at), '.') == if Cut(p) < |p| then Cut(p) + 32 else |p|
  {
    NameIsInsertion(p, side, at);
    CleanLandmarks(p);
    TagIsTagLike(side, at);
    InsertedLandmarks(p, LastIndex(p, '/'), Cut(p), Tag(side, at));
  }

  lemma ExtIs(base: string, d: nat)
    requires d < |base| && base[d] == '.' && forall j :: d < j < |base| ==> base[j] != '.'
    ensures Ext(base) == base[d..]
  {
    LastIndexIs(base, '.', d);
  }

  /** The extension of the last component starts at the last dot of the whole path. */
  lemma ExtFromLastDot(n: string, i: int, d: nat)
    requires -1 <= i < d < |n| && d == LastIndex(n, '.')
    ensures Ext(n[i + 1..]) == n[d..]
  {
    hide LastIndex, Ext;
    var base := n[i + 1..];
    forall j | d - i - 1 < j < |base| ensures base[j] != '.' {
      assert base[j] == n[i + 1 + j];
    }
    ExtIs(base, d - i - 1);
    assert base[d - i - 1..] == n[d..];
  }

  lemma InsertTail(p: string, c: nat, t: string)
    requires c <= |p| && |t| == 32
    ensures Insert(p, c, t)[c + 32..] == p[c..]
  {
  }

  lemma SameDir(p: Path, n: Path)
    requires LastIndex(p, '/') == LastIndex(n, '/')
    requires forall j :: 0 <= j <= LastIndex(p, '/') ==> n[j] == p[j]
    ensures Dir(n) == Dir(p)
  {
  }

  lemma KeepsDirectory(p: Path, side: Side, at: Stamp)
    requires Clean(p)
    ensures Dir(ConflictName(p, side, at)) == Dir(p)
  {
    SavedDotAndSlash(p, side, at);
    NameIsInsertion(p, side, at);
    CleanLandmarks(p);
    InsertedChars(p, Cut(p), Tag(side, at));
    SameDir(p, ConflictName(p, side, at));
  }

  lemma ExtOfName(n: Path)
    requires LastIndex(n, '/') < LastIndex(n, '.')
    ensures Ext(Base(n)) == n[LastIndex(n, '.')..]
  {
    ExtFromLastDot(n, LastIndex(n, '/'), LastIndex(n, '.'));
  }

  /** The saved copy stays in the directory of the original and keeps its extension, if it had one. */
  lemma KeepsDirectoryAndExtension(p: Path, side: Side, at: Stamp)
    requires Clean(p)
    ensures Dir(ConflictName(p, side, at)) == Dir(p)
    ensures Ext(Base(p)) != "" ==> Ext(Base(ConflictName(p, side, at))) == Ext(Base(p))
  {
    hide *;
    KeepsDirectory(p, side, at);
    SavedDotAndSlash(p, side, at);
    NameIsInsertion(p, side, at);
    CutSplits(p);
    if Ext(Base(p)) != "" {
      ExtOfName(ConflictName(p, side, at));
      InsertTail(p, Cut(p), Tag(side, at));
    }
  }

  lemma SameInsertion(p1: string, t1: string, p2: string, t2: string, c: nat)
    requires c <= |p1| && c <= |p2| && |t1| == |t2| && Insert(p1, c, t1) == Insert(p2, c, t2)
    ensures p1 == p2 && t1 == t2
  {
    var x := Insert(p1, c, t1);
    assert p1[..c] == x[..c] == p2[..c];
    assert t1 == x[c..c + |t1|] == t2;
    assert p1[c..] == x[c + |t1|..] == p2[c..];
    assert p1 == p1[..c] + p1[c..] && p2 == p2[..c] + p2[c..];
  }

  lemma InsertionsDiffer(p1: string, i: int, c1: nat, t1: string, p2: string, c2: nat, t2: string)
    requires Landmarks(p1, i, c1) && Landmarks(p2, i, c2) && TagLike(t1) && TagLike(t2)
    requires c1 < |p1| && c2 == |p2|
    ensures Insert(p1, c1, t1) != Insert(p2, c2, t2)
  {
    InsertedChars(p1, c1, t1);
    InsertedChars(p2, c2, t2);
    assert Insert(p1, c1, t1)[c1] == '.';
    if |p1| == |p2| {
      assert Insert(p2, c2, t2)[c1] == p2[c1];
    }
  }

  lemma InsertInjective(p1: string, c1: nat, t1: string, p2: string, c2: nat, t2: string, i: int)
    requires Landmarks(p1, i, c1) && Landmarks(p2, i, c2) && TagLike(t1) && TagLike(t2)
    requires Insert(p1, c1, t1) == Insert(p2, c2, t2)
    ensures p1 == p2 && t1 == t2
  {
    InsertedLandmarks(p1, i, c1, t1);
    InsertedLandmarks(p2, i, c2, t2);
    if c1 < |p1| && c2 == |p2| {
      InsertionsDiffer(p1, i, c1, t1, p2, c2, t2);
    } else if c2 < |p2| && c1 == |p1| {
      InsertionsDiffer(p2, i, c2, t2, p1, c1, t1);
    } else {
      SameInsertion(p1, t1, p2, t2, c1);
    }
  }

  /** Two saved copies share a name only when path, side and time all agree. */
  lemma ConflictNameInjective(p1: Path, s1: Side, t1: Stamp, p2: Path, s2: Side, t2: Stamp)
    requires Clean(p1) && Clean(p2)
    requires ConflictName(p1, s1, t1) == ConflictName(p2, s2, t2)
    ensures p1 == p2 && s1 == s2 && t1 == t2
  {
    SavedDotAndSlash(p1, s1, t1);
    SavedDotAndSlash(p2, s2, t2);
    NameIsInsertion(p1, s1, t1);
    NameIsInsertion(p2, s2, t2);
    CleanLandmarks(p1);
    CleanLandmarks(p2);
    TagIsTagLike(s1, t1);
    TagIsTagLike(s2, t2);
    InsertInjective(p1, Cut(p1), Tag(s1, t1), p2, Cut(p2), Tag(s2, t2), LastIndex(p1, '/'));
    TagInjective(s1, t1, s2, t2);
  }

  /** Paths the engine may create while it keeps the losing version of p. */
  predicate SavedFor(x: Path, p: Path, side: Side, at: Stamp) {
    x == ConflictName(p, side, at) || AtOrUnder(x, PreservedDirName(p, side, at))
  }

  /** A saved path is a head of the original, a tag, and a rest that tells the two kinds apart. */
  predicate Shape(x: Path, p: Path, c: nat, t: string, rest: string) {
    && c <= |p| && x == p[..c] + t + rest
    && ((c == |p| && (rest == "" || rest[0] == '/')) || (rest == p[c..] && '/' !in rest))
  }

  lemma SavedShape(x: Path, p: Path, side: Side, at: Stamp) returns (c: nat, rest: string)
    requires Clean(p) && SavedFor(x, p, side, at)
    ensures Shape(x, p, c, Tag(side, at), rest)
  {
    if x == ConflictName(p, side, at) {
      NameIsInsertion(p, side, at);
      CleanLandmarks(p);
      c, rest := InsertedShape(p, LastIndex(p, '/'), Cut(p), Tag(side, at));
    } else {
      c, rest := PreservedShape(x, p, Tag(side, at));
    }
  }

  lemma InsertedShape(p: Path, i: int, c: nat, t: string) returns (k: nat, rest: string)
    requires Landmarks(p, i, c)
    ensures Shape(Insert(p, c, t), p, k, t, rest)
  {
    k, rest := c, p[c..];
  }

  lemma PreservedShape(x: Path, p: Path, t: string) returns (c: nat, rest: string)
    requires AtOrUnder(x, p + t)
    ensures Shape(x, p, c, t, rest)
  {
    c, rest := |p|, x[|p + t|..];
    assert x == (p + t) + rest;
    assert p[..c] == p;
  }

  lemma MarkInShape(x: string, head: string, t: string, rest: string, mark: string)
    requires x == head + t + rest && |mark| <= |t| && t[..|mark|] == mark
    ensures OccursAt(x, mark, |head|)
  {
    assert x[|head|..|head| + |t|] == t;
    assert x[|head|..|head| + |mark|] == t[..|mark|];
  }

  /** Neither saved files nor anything inside a preserved directory takes part in synchronisation. */
  lemma SavedNamesAreExcluded(patterns: seq<string>, x: Path, p: Path, side: Side, at: Stamp)
    requires CONFLICT_PATTERN in patterns && Clean(p) && SavedFor(x, p, side, at)
    ensures Excluded(patterns, x)
  {
    var c, rest := SavedShape(x, p, side, at);
    TagStartsWithMark(side, at);
    MarkInShape(x, p[..c], Tag(side, at), rest, MARK);
    assert 0 <= c <= |x|;
    MarkedIsExcluded(patterns, x);
  }

  lemma MarkBeforeCut(x: string, p: string, c1: nat, c2: nat, mark: string)
    requires c1 < c2 <= |p| && c2 < |x| && x[..c2] == p[..c2] && x[c2] == '.'
    requires mark != "" && forall i :: 1 <= i < |mark| ==> mark[i] != '.'
    requires OccursAt(x, mark, c1)
    ensures Contains(p, mark)
  {
    if c2 < c1 + |mark| {
      CharOfOccurrence(x, mark, c1, c2);
      assert false;
    }
    assert p[c1..c1 + |mark|] == p[..c2][c1..c1 + |mark|];
    assert x[c1..c1 + |mark|] == x[..c2][c1..c1 + |mark|];
    assert OccursAt(p, mark, c1);
  }

  lemma CharOfOccurrence(x: string, mark: string, c1: nat, k: nat)
    requires OccursAt(x, mark, c1) && c1 <= k < c1 + |mark|
    ensures x[k] == mark[k - c1]
  {
    assert x[c1..c1 + |mark|][k - c1] == x[k];
  }

  lemma ShapesAgree(x: Path, p1: Path, c1: nat, t1: string, r1: string, p2: Path, c2: nat, t2: string,
        r2: string, mark: string)
    requires Shape(x, p1, c1, t1, r1) && Shape(x, p2, c2, t2, r2) && TagLike(t1) && TagLike(t2)
    requires 0 < |mark| <= 32 && t1[..|mark|] == mark && t2[..|mark|] == mark
    requires forall i :: 1 <= i < |mark| ==> mark[i] != '.'
    requires !Contains(p1, mark) && !Contains(p2, mark)
    ensures p1 == p2
  {
    MarkInShape(x, p1[..c1], t1, r1, mark);
    MarkInShape(x, p2[..c2], t2, r2, mark);
    ShapeParts(x, p1[..c1], t1, r1);
    ShapeParts(x, p2[..c2], t2, r2);
    if c1 < c2 {
      MarkBeforeCut(x, p2, c1, c2, mark);
    } else if c2 < c1 {
      MarkBeforeCut(x, p1, c2, c1, mark);
    } else {
      assert p1 == p1[..c1] + p1[c1..] && p2 == p2[..c2] + p2[c2..];
    }
  }

  lemma ShapeParts(x: string, head: string, t: string, rest: string)
    requires x == head + t + rest && TagLike(t)
    ensures x[..|head|] == head && x[|head|] == '.' && x[|head| + 32..] == rest
  {
  }

  /** What is saved for one synchronised path is never what is saved for another one. */
  lemma SavedDisjoint(x: Path, p1: Path, s1: Side, t1: Stamp, p2: Path, s2: Side, t2: Stamp)
    requires Clean(p1) && Clean(p2) && !Contains(p1, MARK) && !Contains(p2, MARK)
    requires SavedFor(x, p1, s1, t1) && SavedFor(x, p2, s2, t2)
    ensures p1 == p2
  {
    hide ConflictName;
    var c1, r1 := SavedShape(x, p1, s1, t1);
    var c2, r2 := SavedShape(x, p2, s2, t2);
    TagIsTagLike(s1, t1);
    TagIsTagLike(s2, t2);
    TagStartsWithMark(s1, t1);
    TagStartsWithMark(s2, t2);
    ShapesAgree(x, p1, c1, Tag(s1, t1), r1, p2, c2, Tag(s2, t2), r2, MARK);
  }

  lemma ParentsBeforeTag(x: Path, q: Path, p: Path, c: nat)
    requires c <= |p| <= |x| && x[..c] == p[..c] && Under(x, q)
    requires forall j :: c <= j < |x| ==> x[j] != '/'
    ensures Under(p, q)
  {
    assert p[..|q|] == p[..c][..|q|] == x[..|q|];
    assert p[|q|] == p[..c][|q|];
  }

  lemma AboveInsertion(p: Path, i: int, c: nat, t: string, q: Path)
    requires Landmarks(p, i, c) && TagLike(t) && Under(Insert(p, c, t), q)
    ensures Under(p, q)
  {
    InsertedChars(p, c, t);
    assert Insert(p, c, t)[..c] == p[..c];
    ParentsBeforeTag(Insert(p, c, t), q, p, c);
  }

  lemma AboveAppended(p: Path, t: string, q: Path)
    requires TagLike(t) && Under(p + t, q)
    ensures Under(p, q)
  {
    assert (p + t)[..|p|] == p[..|p|];
    assert forall j :: |p| <= j < |p| + 32 ==> (p + t)[j] == t[j - |p|];
    ParentsBeforeTag(p + t, q, p, |p|);
  }

  lemma ConflictNameSitsBeside(p: Path, side: Side, at: Stamp, q: Path)
    requires Clean(p) && Under(ConflictName(p, side, at), q)
    ensures Under(p, q)
  {
    hide *;
    NameIsInsertion(p, side, at);
    CleanLandmarks(p);
    TagIsTagLike(side, at);
    AboveInsertion(p, LastIndex(p, '/'), Cut(p), Tag(side, at), q);
  }

  lemma PreservedDirSitsBeside(p: Path, side: Side, at: Stamp, q: Path)
    requires Under(PreservedDirName(p, side, at), q)
    ensures Under(p, q)
  {
    hide Under, Tag, TagLike;
    TagIsTagLike(side, at);
    AboveAppended(p, Tag(side, at), q);
  }

  lemma LongerName(p: Path, side: Side, at: Stamp)
    requires Clean(p)
    ensures ConflictName(p, side, at) != p
  {
    hide *;
    NameIsInsertion(p, side, at);
    TagIsTagLike(side, at);
    InsertedLength(p, Cut(p), Tag(side, at));
  }

  lemma InsertedLength(p: string, c: nat, t: string)
    requires c <= |p| && TagLike(t)
    ensures |Insert(p, c, t)| == |p| + 32
  {
  }

  lemma AppendedIsApart(p: Path, t: string, x: Path)
    requires TagLike(t) && AtOrUnder(x, p + t)
    ensures !AtOrUnder(x, p)
  {
    assert (p + t)[|p|] == t[0];
    assert x == p + t || x[..|p + t|][|p|] == (p + t)[|p|];
  }

  /** No saved name is the original or lies below it, and preserved directories hold nothing of it. */
  lemma SavedIsNotOriginal(p: Path, side: Side, at: Stamp)
    requires Clean(p)
    ensures ConflictName(p, side, at) != p && !AtOrUnder(PreservedDirName(p, side, at), p)
    ensures forall x :: AtOrUnder(x, PreservedDirName(p, side, at)) ==> !AtOrUnder(x, p)
    ensures !Under(ConflictName(p, side, at), p)
  {
    hide ConflictName, Tag, Under, Clean;
    LongerName(p, side, at);
    TagIsTagLike(side, at);
    forall x | AtOrUnder(x, PreservedDirName(p, side, at)) ensures !AtOrUnder(x, p) {
      AppendedIsApart(p, Tag(side, at), x);
    }
    if Under(ConflictName(p, side, at), p) {
      ConflictNameSitsBeside(p, side, at, p);
      NotBelowItself(p);
    }
  }

  lemma NotBelowItself(p: Path)
    ensures !Under(p, p)
  {
  }
}
