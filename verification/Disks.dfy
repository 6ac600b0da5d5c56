// A tree on disk as a map from relative path to node, and the effect on it of
// internal/transfer/transfer.go.

module Disks {
  import opened Nodes
  import opened Options
  import opened Paths

  type Disk = map<Path, Node>

  datatype Error = NotFound | NotDirectory | IsDirectory | NotEmpty | Unsyncable

  const DEFAULT_MODE: Perms := 493 // rwxr-xr-x

  function At(d: Disk, p: Path): Option<Node> {
    if p in d then Some(d[p]) else None
  }

  /** Whatever exists sits in existing directories. */
  ghost predicate Tree(d: Disk) {
    forall p, q :: p in d && Under(p, q) ==> q in d && d[q].Dir?
  }

  ghost predicate HasParents(d: Disk, p: Path) {
    forall q :: Under(p, q) ==> q in d && d[q].Dir?
  }

  /** MkdirAll can succeed: nothing above p is in the way. */
  predicate ParentsFree(d: Disk, p: Path) {
    forall q :: q in Ancestors(p) ==> q in d ==> d[q].Dir?
  }

  function MkdirParents(d: Disk, p: Path, mode: Perms): Disk {
    d + map q | q in Ancestors(p) && q !in d :: Dir(mode)
  }

  lemma ParentsAlreadyThere(d: Disk, p: Path, mode: Perms)
    requires HasParents(d, p)
    ensures ParentsFree(d, p) && MkdirParents(d, p, mode) == d
  {
    forall q | q in Ancestors(p) ensures q in d && d[q].Dir? {
      AncestorsAreAbove(p, q);
    }
  }

  lemma TreeHasParents(d: Disk, p: Path)
    requires Tree(d) && p in d
    ensures HasParents(d, p)
  {
  }

  /** rsync of one file or link; into an existing directory it lands under its own name. */
  function CopyFile(n: Node, base: string, d: Disk, to: Path): Result<Disk, Error> {
    if !ParentsFree(d, to) then Failure(NotDirectory)
    else if !Carries(n) then Failure(Unsyncable)
    else
      var ready := MkdirParents(d, to, DEFAULT_MODE);
      if to in d && d[to].Dir? then
        var inside := to + "/" + base;
        if inside in d && d[inside].Dir? then Failure(IsDirectory) else Success(ready[inside := n])
      else Success(ready[to := n])
  }

  function Rebase(x: Path, from: Path, to: Path): Path
    requires AtOrUnder(x, from)
  {
    to + x[|from|..]
  }

  lemma RebaseBack(x: Path, from: Path, to: Path)
    requires AtOrUnder(x, from)
    ensures AtOrUnder(Rebase(x, from, to), to)
    ensures Rebase(x, from, to) == to <==> x == from
    ensures Rebase(Rebase(x, from, to), to, from) == x
  {
    var y := Rebase(x, from, to);
    assert y[..|to|] == to && y[|to|..] == x[|from|..];
    assert x == x[..|from|] + x[|from|..];
  }

  /** The quick check of a tree copy: equal size and mtime, and rsync leaves the bytes alone. */
  function Transferred(existing: Option<Node>, n: Node): Node {
    if n.File? && existing.Some? && existing.value.File?
       && |existing.value.content| == |n.content| && existing.value.mtime == n.mtime
    then File(existing.value.content, n.perms, n.mtime)
    else n
  }

  predicate DirectoryInTheWay(src: Disk, from: Path, d: Disk, to: Path) {
    exists x :: x in src && AtOrUnder(x, from) && !src[x].Dir? &&
      Rebase(x, from, to) in d && d[Rebase(x, from, to)].Dir?
  }

  function Images(src: Disk, from: Path, to: Path): set<Path> {
    set x | x in src && AtOrUnder(x, from) :: Rebase(x, from, to)
  }

  function CopyTree(src: Disk, from: Path, d: Disk, to: Path): Result<Disk, Error> {
    if !ParentsFree(d, to) || (to in d && !d[to].Dir?) then Failure(NotDirectory)
    else if from !in src then Failure(NotFound)
    else if DirectoryInTheWay(src, from, d, to) then Failure(IsDirectory)
    else
      var ready := MkdirParents(d, to, DEFAULT_MODE);
      Success(ready + map y | y in Images(src, from, to) && AtOrUnder(y, to) && Rebase(y, to, from) in src ::
        Transferred(At(d, y), src[Rebase(y, to, from)]))
  }

  lemma ImagesAreRebased(src: Disk, from: Path, to: Path, y: Path)
    ensures y in Images(src, from, to) <==> AtOrUnder(y, to) && Rebase(y, to, from) in src
  {
    if y in Images(src, from, to) {
      var x :| x in src && AtOrUnder(x, from) && y == Rebase(x, from, to);
      RebaseBack(x, from, to);
    }
    if AtOrUnder(y, to) && Rebase(y, to, from) in src {
      RebaseBack(y, to, from);
      assert Rebase(Rebase(y, to, from), from, to) == y;
    }
  }

  /** Copying a tree to a free place with existing parents: the copy is exact and nothing else changes. */
  lemma CopyTreeToFreePlace(src: Disk, from: Path, d: Disk, to: Path)
    requires from in src && HasParents(d, to)
    requires forall y :: AtOrUnder(y, to) ==> y !in d
    ensures CopyTree(src, from, d, to).Success?
    ensures forall y :: At(CopyTree(src, from, d, to).value, y) == (
                          if AtOrUnder(y, to) then At(src, Rebase(y, to, from)) else At(d, y))
  {
    ParentsAlreadyThere(d, to, DEFAULT_MODE);
    if DirectoryInTheWay(src, from, d, to) {
      var x :| x in src && AtOrUnder(x, from) && Rebase(x, from, to) in d;
      RebaseBack(x, from, to);
      assert false;
    }
    var after := CopyTree(src, from, d, to).value;
    forall y ensures At(after, y) == if AtOrUnder(y, to) then At(src, Rebase(y, to, from)) else At(d, y) {
      ImagesAreRebased(src, from, to, y);
    }
  }

  lemma RebaseInPlace(x: Path, p: Path)
    requires AtOrUnder(x, p)
    ensures Rebase(x, p, p) == x
  {
    assert x == x[..|p|] + x[|p|..];
  }

  /** Mkdir: the nine permission bits of the source, for the directory and any parent it creates. */
  function Mkdir(mode: Perms, d: Disk, to: Path): Result<Disk, Error> {
    if !ParentsFree(d, to) || (to in d && !d[to].Dir?) then Failure(NotDirectory)
    else
      var ready := MkdirParents(d, to, mode % 512);
      Success(if to in d then ready else ready[to := Dir(mode % 512)])
  }

  function RemoveAll(d: Disk, p: Path): Disk {
    map x | x in d && !AtOrUnder(x, p) :: d[x]
  }

  predicate HasEntries(d: Disk, p: Path) {
    exists x :: x in d && Under(x, p)
  }

  /** Removing what is not there is not an error. */
  function Remove(d: Disk, p: Path, isDir: bool): Result<Disk, Error> {
    if isDir then Success(RemoveAll(d, p))
    else if HasEntries(d, p) then Failure(NotEmpty)
    else Success(d - {p})
  }

  /** Renaming a file or link. */
  function MoveFile(d: Disk, from: Path, to: Path): Result<Disk, Error> {
    if !ParentsFree(d, to) then Failure(NotDirectory)
    else if from !in d then Failure(NotFound)
    else if to in d && d[to].Dir? then Failure(IsDirectory)
    else Success((MkdirParents(d, to, DEFAULT_MODE) - {from})[to := d[from]])
  }

  /** n with the mode and mtime of the other node; a link takes only the mtime, and only from a link. */
  function WithAttrs(n: Node, attrs: Node): Node {
    if n.Symlink? && attrs.Symlink? then n.(mtime := attrs.mtime)
    else if n.Symlink? || attrs.Symlink? || n.Special? || attrs.Special? then n
    else
      var st := StatOf(attrs);
      if n.Dir? then Dir(st.perms) else File(n.content, st.perms, st.mtime)
  }

  /** The destination is written: it exists, and is a link if and only if the source is one. */
  predicate Attributed(attrs: Node, d: Disk, to: Path) {
    to in d && (attrs.Symlink? <==> d[to].Symlink?)
  }

  function SyncAttrs(attrs: Node, d: Disk, to: Path): Disk {
    if to in d then d[to := WithAttrs(d[to], attrs)] else d
  }
}
