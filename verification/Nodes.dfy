// What a tree holds at a path, and its cheap identity (internal/hash/hash.go).

module Nodes {
  type Byte = x: int | 0 <= x < 256
  type Bytes = seq<Byte>

  /** File sizes are int64. */
  type Content = c: Bytes | |c| < 0x8000_0000_0000_0000

  /** Nanoseconds since 1970, within the range where the difference of two times does not saturate. */
  type Instant = t: int | -0x4000_0000_0000_0000 <= t < 0x4000_0000_0000_0000

  /** The nine permission bits, and above them setuid, setgid and sticky. */
  type Perms = p: int | 0 <= p < 4096

  const SECOND: int := 1_000_000_000

  /** A directory's own mtime moves whenever its entries do; it is not part of the model. */
  datatype Node =
    | File(content: Content, perms: Perms, mtime: Instant)
    | Symlink(target: Content, mtime: Instant)
    | Dir(perms: Perms)
    | Special

  datatype FileKind = RegularKind | DirKind | SymlinkKind | SpecialKind

  datatype Stat = Stat(size: nat, mtime: Instant, perms: Perms, isDir: bool, kind: FileKind)

  function StatOf(n: Node): Stat {
    match n
    case File(content, perms, mtime) => Stat(|content|, mtime, perms, false, RegularKind)
    case Symlink(target, mtime) => Stat(|target|, mtime, 511, false, SymlinkKind)
    case Dir(perms) => Stat(0, 0, perms, true, DirKind)
    case Special => Stat(0, 0, 0, false, SpecialKind)
  }

  /** mtimes less than a second apart count as equal. */
  predicate Near(a: Instant, b: Instant) {
    -SECOND < a - b < SECOND
  }

  /** Stat.Unchanged: size, type and mtime agree, so the content is presumed the same. */
  predicate Unchanged(a: Stat, b: Stat) {
    a.size == b.size && a.isDir == b.isDir && Near(a.mtime, b.mtime)
  }

  /** Engine.attrsDiverged without ownership. */
  predicate AttrsDiverged(a: Stat, b: Stat) {
    a.perms != b.perms || !Near(a.mtime, b.mtime)
  }

  /** A regular file or a symlink: what CopyFile carries and a digest describes. */
  predicate Carries(n: Node) {
    n.File? || n.Symlink?
  }

  /** The same version: equal kind, and equal bytes or equal link target. */
  predicate SameVersion(a: Node, b: Node) {
    match (a, b)
    case (File(c, _, _), File(d, _, _)) => c == d
    case (Symlink(t, _), Symlink(u, _)) => t == u
    case (Dir(_), Dir(_)) => true
    case (Special, Special) => true
    case _ => false
  }
}
