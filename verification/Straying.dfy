// Three inputs on which one event leaves its component, one for each way there is.

module Straying {
  import CaseTwins
  import opened Digests
  import opened Disks
  import opened Events
  import opened Exclude
  import opened Frames
  import opened Like
  import opened Locality
  import opened Names
  import opened Nodes
  import opened Partitions
  import opened Paths
  import opened Removal
  import SavedCopies
  import opened Settings
  import opened Sync

  const MINE: Node := File([1], 420, 0)
  const THEIRS: Node := File([2], 420, 0)

  lemma OnlyOwnNames(d: Disk, p: Path, at: Stamp)
    requires Clean(p) && forall x :: x in d ==> AtOrUnder(x, p)
    ensures NamesFree(d, p, at)
  {
    hide ConflictName, PreservedDirName, Clean, Under;
    SavedIsNotOriginal(p, SideA, at);
    SavedIsNotOriginal(p, SideB, at);
    forall x | x in d ensures !Saves(x, p, at) {
      assert !SavedFor(x, p, SideA, at) && !SavedFor(x, p, SideB, at);
    }
  }

  /** Two versions of a file at the top of the tree that nobody has recorded, under preserve. */
  lemma TopConflictStrays(cfg: Config, env: Env, s: State)
    requires cfg.conflict == Preserve && cfg.hashMax <= 0 && WalkFaithful(env)
    requires s.a == Replica(map["f" := MINE], map[]) && s.b == Replica(map["f" := THEIRS], map[])
    ensures !WithinTop(s, Process(cfg, env, s, Event(SideA, Create, "f", "", false)).state, "f")
  {
    hide WalkFaithful, WithinTop, Process, DigestOf, Clean, Under, NamesFree;
    var ev := Event(SideA, Create, "f", "", false);
    CaseTwins.OneLetter("f");
    assert "f"[0] == 'f';
    OnlyOwnNames(s.b.disk, "f", env.clock("f"));
    assert Removable(env, s.b.disk, "f") by { assert forall x :: x in s.b.disk ==> x == "f"; }
    ConflictSeen(cfg, s);
    EventLocalExactly(cfg, env, s, ev);
  }

  lemma ConflictSeen(cfg: Config, s: State)
    requires cfg.conflict == Preserve && cfg.hashMax <= 0
    requires s.a == Replica(map["f" := MINE], map[]) && s.b == Replica(map["f" := THEIRS], map[])
    ensures SavesCopy(cfg, s, Event(SideA, Create, "f", "", false))
  {
    hide Compute;
    FullDigestsDecide(MINE, THEIRS, cfg.hashMax, cfg.hashSample);
    assert MINE.content[0] != THEIRS.content[0];
  }

  lemma TwoTops()
    ensures Relative("Docs/sub") && CaseUnder("docs/sub/y", "Docs/sub")
    ensures TopComponent("docs/sub/y") != TopComponent("Docs/sub")
  {
    hide TopComponent, Partition;
    DocsIsClean();
    var p, x := "Docs/sub", "docs/sub/y";
    assert p[..4] == "Docs" && p[4] == '/' && x[..4] == "docs" && x[4] == '/';
    SubtreeSharesPartition(p, "Docs", 1);
    SubtreeSharesPartition(x, "docs", 1);
    SavedCopies.SlashlessTop("Docs");
    SavedCopies.SlashlessTop("docs");
    assert "Docs"[0] == 'D' && "docs"[0] == 'd';
  }

  lemma DocsIsClean()
    ensures Clean("Docs/sub")
  {
    var p := "Docs/sub";
    LastIndexIs(p, '/', 4);
    assert p[..4] == "Docs" && p[5..] == "sub" && "Docs" != ".";
  }

  /** A directory that covers a recorded path of another component by letter case alone. */
  lemma CaseRemovalStrays(cfg: Config, env: Env, s: State)
    requires "Docs/sub" in s.b.disk && "docs/sub/y" in s.b.rows && Removable(env, s.b.disk, "Docs/sub")
    ensures !WithinTop(s, Process(cfg, env, s, Event(SideA, Delete, "Docs/sub", "", true)).state, "Docs/sub")
  {
    hide WithinTop, Process, Clean, Under, CaseUnder, TopComponent, SetsAside, Removable;
    TwoTops();
    EventLocalExactly(cfg, env, s, Event(SideA, Delete, "Docs/sub", "", true));
  }

  /** A directory at the top of the tree with a file the table does not know. */
  lemma PreservedDirStrays(cfg: Config, env: Env, s: State)
    requires cfg.dirDelete == PreserveUnknown && WalkFaithful(env) && !Excluded(cfg.exclude, "D/x")
    requires s.b.disk == map["D" := CaseTwins.FOLDER, "D/x" := MINE] && "D/x" !in s.b.rows
    ensures !WithinTop(s, Process(cfg, env, s, Event(SideA, Delete, "D", "", true)).state, "D")
  {
    hide WalkFaithful, WithinTop, Process, Clean, Under, NamesFree, Excluded, SetsAside, Tree, RowsAtHome;
    CaseTwins.TwinPaths();
    TreeOfTwo(s.b.disk);
    OnlyOwnNames(s.b.disk, "D", env.clock("D"));
    FileIsUnknown(cfg, env, s.b);
    assert '/' !in "D" by { assert "D"[0] == 'D'; }
    EventLocalExactly(cfg, env, s, Event(SideA, Delete, "D", "", true));
  }

  lemma TreeOfTwo(d: Disk)
    requires d == map["D" := CaseTwins.FOLDER, "D/x" := MINE]
    ensures Tree(d) && forall x :: x in d ==> AtOrUnder(x, "D")
  {
    hide Under, Clean, CaseUnder;
    CaseTwins.TwinPaths();
    assert forall x :: x in d <==> x == "D" || x == "D/x";
  }

  lemma FileIsUnknown(cfg: Config, env: Env, r: Replica)
    requires cfg.dirDelete == PreserveUnknown && WalkFaithful(env) && !Excluded(cfg.exclude, "D/x")
    requires r.disk == map["D" := CaseTwins.FOLDER, "D/x" := MINE] && "D/x" !in r.rows
    ensures SetsAside(cfg, env, r, "D")
  {
    hide Excluded, Under, Clean, CaseUnder, Visits, Unsynced;
    CaseTwins.TwinPaths();
    assert Faithful(env.walk(r.disk, "D"), r.disk, "D");
    UnsyncedIsUnknown(cfg, env, r, "D");
    assert Unknown(cfg, r, "D/x") && AtOrUnder("D/x", "D");
    assert "D/x" in Unsynced(cfg, r, Visits(env, r.disk, "D"));
  }
}
