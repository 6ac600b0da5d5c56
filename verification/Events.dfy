// internal/event/event.go: the vocabulary shared by watchers and engine.

module Events {
  import opened Paths

  datatype Side = SideA | SideB {
    function Opposite(): (r: Side)
      ensures r != this
    {
      if this == SideA then SideB else SideA
    }

    function Name(): string {
      if this == SideA then "A" else "B"
    }
  }

  datatype Kind = Create | Modify | Delete | Move | Attrib

  /** `from` is meaningful for moves only. */
  datatype Event = Event(side: Side, kind: Kind, path: Path, from: Path, isDir: bool)
}
