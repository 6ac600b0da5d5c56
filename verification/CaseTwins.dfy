// Where letter case matters: the table forgets a subtree without regard to case, so a directory removed
// in a pass can take with it the rows of another one whose name differs by case alone. Two inputs on
// which it does.

module CaseTwins {
  import opened Actions
  import opened Digests
  import opened Disks
  import opened Events
  import opened Exclude
  import opened Frames
  import opened Like
  import opened Names
  import opened Nodes
  import opened Options
  import opened Passes
  import opened Paths
  import opened Policies
  import opened Settings
  import opened Stale
  import opened StaleRows
  import opened Sync
  import opened Twins
  import opened Versions

  const NOTE: Node := File([], 420, 0)
  const EDITED: Node := File([7], 420, SECOND)
  const FOLDER: Node := Node.Dir(493)
  const BARE: Disk := map["d" := FOLDER]
  const ORDER: seq<Path> := ["D", "d", "D/x"]

  predicate TwinConfig(cfg: Config) {
    && cfg.first == Union && SavedExcluded(cfg)
    && !Excluded(cfg.exclude, "D") && !Excluded(cfg.exclude, "d") && !Excluded(cfg.exclude, "D/x")
  }

  /** A tree of at most the three paths of the order. */
  predicate Small(d: Disk) {
    && d.Keys <= {"D", "d", "D/x"}
    && ("D" in d ==> d["D"] == FOLDER) && ("d" in d ==> d["d"] == FOLDER)
    && ("D/x" in d ==> "D" in d && d["D/x"].File?)
  }

  lemma OneLetter(p: Path)
    requires |p| == 1 && p[0] != '/' && p[0] != '.'
    ensures Clean(p) && forall q :: !Under(p, q)
  {
    LastIndexIs(p, '/', -1);
    assert p[0..] == p;
  }

  lemma LetterBelow(p: Path, h: Path)
    requires |p| == 3 && p[1] == '/' && p[0] != '/' && p[2] != '/' && |h| == 1 && h[0] != '.' && p[0] == h[0]
    ensures Clean(p) && forall q :: Under(p, q) <==> q == h
  {
    LastIndexIs(p, '/', 1);
    assert p[..1] == h && p[2..] != "";
    forall q ensures Under(p, q) <==> q == h {
      if Under(p, q) { assert |q| == 1 && q == p[..1]; }
    }
  }

  lemma TwinPaths()
    ensures forall q :: !Under("D", q) && !Under("d", q) && (Under("D/x", q) <==> q == "D")
    ensures CaseUnder("D/x", "d") && Clean("D") && Clean("d") && Clean("D/x")
    ensures !CaseUnder("d", "D") && "D" != "d"
  {
    hide Clean, Under;
    OneLetter("D");
    OneLetter("d");
    assert "D/x"[0] == 'D' && "D/x"[1] == '/' && "D/x"[2] == 'x' && "d"[0] == 'd' && "D"[0] == 'D';
    LetterBelow("D/x", "D");
  }

  /** What is visible is nobody's saved copy. */
  lemma VisibleNamesFree(cfg: Config, d: Disk, p: Path, at: Stamp)
    requires SavedExcluded(cfg) && Visible(cfg, p) && forall x :: x in d ==> !Excluded(cfg.exclude, x)
    ensures NamesFree(d, p, at)
  {
    hide Saves, Excluded, Clean;
    forall x | x in d ensures !Saves(x, p, at) {
      VisibleIsNotSaved(cfg, p, x, at);
    }
  }

  lemma SmallTree(cfg: Config, d: Disk)
    requires TwinConfig(cfg) && Small(d)
    ensures Tree(d) && forall x :: x in d ==> !Excluded(cfg.exclude, x) && Clean(x) && !d[x].Special?
  {
    hide Excluded, Clean, Under;
    TwinPaths();
    assert forall x :: x in d ==> x == "D" || x == "d" || x == "D/x";
  }

  lemma SmallStart(cfg: Config, env: Env, s: State)
    requires TwinConfig(cfg) && Small(s.a.disk) && Small(s.b.disk) && WalkFaithful(env)
    ensures Start(cfg, env, s)
  {
    hide Excluded, Clean, Tree, NamesFree, WalkFaithful, Small;
    SmallTree(cfg, s.a.disk);
    SmallTree(cfg, s.b.disk);
    forall p | Visible(cfg, p) ensures NamesFree(s.a.disk, p, env.clock(p)) && NamesFree(s.b.disk, p, env.clock(p)) {
      VisibleNamesFree(cfg, s.a.disk, p, env.clock(p));
      VisibleNamesFree(cfg, s.b.disk, p, env.clock(p));
    }
  }

  lemma SmallOrder(cfg: Config, s: State)
    requires TwinConfig(cfg) && Small(s.a.disk) && Small(s.b.disk)
    requires Present(s, "D") && Present(s, "d") && Present(s, "D/x")
    ensures UnionOrder(cfg, s, ORDER)
  {
    hide Excluded, TopDown, NoDuplicates;
    OrderIsTopDown();
    assert forall p :: p in ORDER <==> p == "D" || p == "d" || p == "D/x";
  }

  lemma OrderIsTopDown()
    ensures NoDuplicates(ORDER) && TopDown(ORDER)
  {
    hide Under, CaseUnder, Clean;
    TwinPaths();
    assert ORDER[0] == "D" && ORDER[1] == "d" && ORDER[2] == "D/x";
  }

  /** On B alone, and the table knows it on A: A removed it. */
  lemma GoneOnA(cfg: Config, s: State)
    requires cfg.first == Union && "d" !in s.a.disk && s.b.disk.Keys * {"d"} == {"d"}
    requires s.b.disk["d"] == FOLDER && "d" in s.a.rows
    ensures Doomed(cfg, s, "d")
  {
    hide Under, CaseUnder, Clean;
    TwinPaths();
    assert "d" in s.b.disk.Keys;
    assert LoneOn(s, "d") == Some(SideB);
  }

  // ------------------------------------------------------------- a record that is lost

  /** A has a new directory "D" with a file in it; B still has "d", which A once had and removed. */
  predicate NewTwin(s: State) {
    && s.a.disk == map["D" := FOLDER, "D/x" := NOTE] && s.b.disk == BARE
    && s.b.rows == map[] && "d" in s.a.rows
  }

  lemma NewTwinCopied(cfg: Config, s: State)
    requires TwinConfig(cfg) && NewTwin(s)
    ensures CopiedBelow(cfg, s, ORDER, 0, "D/x") && Dropped(cfg, s, ORDER, 1)
  {
    hide Excluded, Under, CaseUnder, Clean;
    TwinPaths();
    GoneOnA(cfg, s);
    assert ORDER[..1] == ["D"];
  }

  lemma NewTwinLoses(cfg: Config, s: State)
    requires TwinConfig(cfg) && NewTwin(s)
    ensures LosesRecord(cfg, s, ORDER, "D/x")
  {
    hide Excluded, Under, CaseUnder, CopiedBelow, Dropped, Clean;
    TwinPaths();
    NewTwinCopied(cfg, s);
    assert ORDER[2] == "D/x" && ORDER[1] == "d";
    assert RemovedIn(cfg, s, ORDER, 1, 2, "D/x");
    assert !RemovedIn(cfg, s, ORDER, 3, 3, "D/x");
  }

  /**
   * Both passes copy "D" and then remove "d", forgetting with it what the table holds below "D". Only the
   * pass that looks again records the file once more.
   */
  lemma TwinsPartThePasses(cfg: Config, env: Env, s: State)
    requires TwinConfig(cfg) && NewTwin(s) && WalkFaithful(env)
    ensures Start(cfg, env, s) && UnionOrder(cfg, s, ORDER)
    ensures LostAndFound(Reconcile(cfg, env, s, ORDER), FreshPass(cfg, env, s, ORDER).state, "D/x")
  {
    hide Excluded, LosesRecord, Start, UnionOrder, Reconcile, FreshPass;
    SmallStart(cfg, env, s);
    SmallOrder(cfg, s);
    NewTwinLoses(cfg, s);
    StaleInventoryIsHarmless(cfg, env, s, ORDER, "D/x");
  }

  // ------------------------------------------------- a one-sided change taken for a conflict

  /** Both have "D/x" as recorded, except that A edited it; B alone has "d", which A removed. */
  predicate EditedTwin(cfg: Config, s: State) {
    && s.a.disk == map["D" := FOLDER, "D/x" := EDITED] && s.b.disk == BARE["D" := FOLDER]["D/x" := NOTE]
    && "d" in s.a.rows
    && Find(s.a.rows, "D/x") == Find(s.b.rows, "D/x") == Some(EntryFor(cfg, NOTE))
  }

  lemma EditShows(cfg: Config)
    requires cfg.hashMax <= 0
    ensures Compare(DigestOf(cfg, EDITED), DigestOf(cfg, NOTE)) == Different
    ensures Compare(DigestOf(cfg, EDITED), EntryFor(cfg, NOTE).digest) == Different
    ensures Compare(DigestOf(cfg, NOTE), EntryFor(cfg, NOTE).digest) == Same
  {
    hide Compute, Stored, Compare;
    assert [7][0] == 7;
    FullDigestsDecide(EDITED, NOTE, cfg.hashMax, cfg.hashSample);
    FullDigestsDecide(NOTE, NOTE, cfg.hashMax, cfg.hashSample);
    ComputedSurvives(NOTE, cfg.hashMax, cfg.hashSample);
  }

  lemma EditIsDrift(cfg: Config, s: State)
    requires EditedTwin(cfg, s) && cfg.hashMax <= 0
    ensures FilesAt(s, "D/x") && Drifted(cfg, s, SideA, "D/x") && Judge(cfg, s.a.disk["D/x"], s.b.disk["D/x"]).differs
    ensures Newer(s, SideA, "D/x")
  {
    hide DigestOf, Stored, Compare;
    EditShows(cfg);
    assert s.a.disk["D/x"] == EDITED && s.b.disk["D/x"] == NOTE;
  }

  lemma EditIsTwinned(cfg: Config, s: State)
    requires TwinConfig(cfg) && EditedTwin(cfg, s)
    ensures !Untwinned(cfg, s, ORDER, "D/x")
  {
    hide Excluded, Under, CaseUnder, Doomed, Clean;
    TwinPaths();
    EditedTwinGone(cfg, s);
    assert ORDER[2] == "D/x" && ORDER[1] == "d";
  }

  lemma EditedTwinGone(cfg: Config, s: State)
    requires TwinConfig(cfg) && EditedTwin(cfg, s)
    ensures Doomed(cfg, s, "d")
  {
    hide Excluded, Doomed, EntryFor;
    GoneOnA(cfg, s);
  }

  /**
   * The edit of A would travel without a conflict, but the removal of "d" forgets the rows of "D/x" first.
   * Under preserve the pass then keeps the version of B beside it and adds a row to the conflict list.
   */
  lemma TwinMakesConflict(cfg: Config, env: Env, s: State)
    requires TwinConfig(cfg) && EditedTwin(cfg, s) && WalkFaithful(env) && cfg.hashMax <= 0 && cfg.conflict == Preserve
    ensures Start(cfg, env, s) && UnionOrder(cfg, s, ORDER) && Drifted(cfg, s, SideA, "D/x")
    ensures var final, name := Reconcile(cfg, env, s, ORDER), ConflictName("D/x", SideB, env.clock("D/x"));
      && At(final.a.disk, "D/x") == At(final.b.disk, "D/x") == Some(EDITED) && At(final.b.disk, name) == Some(NOTE)
      && "D/x" in final.conflicts && final.conflicts["D/x"].resolution == Some("preserve:" + name)
  {
    hide Excluded, Start, UnionOrder, Reconcile, ConflictName, Untwinned, Drifted, Judge, DigestText, DigestOf,
      Newer, OriginOf;
    SmallStart(cfg, env, s);
    SmallOrder(cfg, s);
    EditIsDrift(cfg, s);
    EditIsTwinned(cfg, s);
    VisibleTwin(cfg);
    UndecidedFavoursNewer(cfg, env, s, ORDER, "D/x", SideA);
  }

  lemma VisibleTwin(cfg: Config)
    requires TwinConfig(cfg)
    ensures Visible(cfg, "D/x")
  {
    hide Excluded;
    TwinPaths();
  }
}
