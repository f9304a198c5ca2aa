/**
 Four more histories, for the kinds of step that the restriction limits besides those of `CollectorRaces`:
 a removal of a repo that has forks, an id used again, a removal during a scan, and a forced push.
 */
module CollectorClauses {
  import opened Base
  import opened Reachability
  import opened ForkRelation
  import opened Cascade
  import opened Collector
  import opened CollectorSafety
  import opened CollectorLimits
  import opened CollectorRaces

  ghost function WithUpload(s: State, up: Upload): State {
    s.(uploads := map[0 := up])
  }

  // ── a removal that orphans a fork ────────────────────────────────────

  ghost function ForkAndCopy(): seq<Action> {
    [ForkLink("src0", "fork"), SnapshotRead("fork", "main"), SnapshotWrite("fork")]
  }

  lemma ForkedAndCopied()
    ensures Path(Lone(MAIN, OBJ, map[], map[], map[]), ForkAndCopy(), Forked(MAIN, OBJ, MAIN, map[], map[], map[]))
  {
    hide Leads, Path, Lone, Forked;
    ForkLinked(map[]);
    SnapshotTaken(map[], map[]);
    SnapshotWritten(MAIN, OBJ, map[], map[]);
    Walk([Lone(MAIN, OBJ, map[], map[], map[]), Forked(MAIN, OBJ, NO_REFS, map[], map[], map[]),
          Forked(MAIN, OBJ, NO_REFS, map["fork" := MAIN], map[], map[]), Forked(MAIN, OBJ, MAIN, map[], map[], map[])], ForkAndCopy());
  }

  lemma ForcedDelete()
    ensures var s := Forked(MAIN, OBJ, MAIN, map[], map[], map[]);
            var a := DeleteStart(0, ["src0"]);
            && Enabled(Leaves(), s, a) && !Benign(Leaves(), s, a)
            && Next(Leaves(), s, a) == Forked(MAIN, OBJ, MAIN, map[], CHECKED, map[])
  {
    var s := Forked(MAIN, OBJ, MAIN, map[], map[], map[]);
    assert ["src0"][..1] == ["src0"];
    assert "fork" in s.src && s.src["fork"] == Some("src0") && "fork" !in ["src0"][..1];
    assert !SafeDeletion(s.src, ["src0"]);
  }

  lemma RemovedAlone()
    ensures Path(Forked(MAIN, OBJ, MAIN, map[], CHECKED, map[]), [DeleteNext(0)], Orphaned())
  {
    hide Leads, Path, Forked, Orphaned;
    SourceRemoved();
    Walk([Forked(MAIN, OBJ, MAIN, map[], CHECKED, map[]), Orphaned()], [DeleteNext(0)]);
  }

  /** A delete request that goes ahead although the repo has a fork. */
  lemma ForcedDeleteOrphansTheFork()
    ensures BreaksWith(Leaves(), Seed() + ForkAndCopy(), DeleteStart(0, ["src0"]), [DeleteNext(0)])
  {
    hide *;
    Seeded();
    ForkedAndCopied();
    ForcedDelete();
    RemovedAlone();
    OrphanedIsBroken();
    var s := Forked(MAIN, OBJ, MAIN, map[], map[], map[]);
    PathsJoin(EMPTY, Seed(), Lone(MAIN, OBJ, map[], map[], map[]), ForkAndCopy(), s);
    Breaks(Seed() + ForkAndCopy(), s, DeleteStart(0, ["src0"]), Forked(MAIN, OBJ, MAIN, map[], CHECKED, map[]), [DeleteNext(0)], Orphaned());
  }

  // ── an id used again while a push to its last holder is on its way ───

  const FORK_CHECKED: map<DeleteId, seq<RepoId>> := map[0 := ["fork"]]
  const FORK_GONE: map<DeleteId, seq<RepoId>> := map[0 := []]

  ghost function ToFork(carried: set<Oid>): Upload {
    Upload("fork", "obj0", None, carried)
  }

  ghost function LinkedOnly(): State {
    Forked(MAIN, OBJ, NO_REFS, map[], map[], map[])
  }

  ghost function PushThenDelete(): seq<Action> {
    [ForkLink("src0", "fork"), Stage(0, "fork", "obj0", None), See(0, "obj0"), DeleteStart(0, ["fork"]), DeleteNext(0)]
  }

  lemma StagedToFork()
    ensures Leads(LinkedOnly(), Stage(0, "fork", "obj0", None), WithUpload(LinkedOnly(), ToFork({})))
  {
  }

  lemma SeenThroughFork()
    ensures Leads(WithUpload(LinkedOnly(), ToFork({})), See(0, "obj0"), WithUpload(LinkedOnly(), ToFork({"obj0"})))
  {
    hide Enabled, Benign, Next, Snapshot;
    var s, t := WithUpload(LinkedOnly(), ToFork({})), WithUpload(LinkedOnly(), ToFork({"obj0"}));
    ChainSelf(s.src, "src0");
    ChainUp(s.src, "fork", "src0", "src0");
    assert StoredAt(s, "src0", "obj0") && SafeAt(s, "src0", "obj0");
    assert Resolvable(s, "fork", "obj0") && SafeCopy(s, "fork", "obj0");
    SeeGives(s, 0, "obj0");
    assert {} + {"obj0"} == {"obj0"};
    assert s.uploads[0 := t.uploads[0]] == t.uploads;
  }

  lemma ForkChecked()
    ensures Leads(WithUpload(LinkedOnly(), ToFork({"obj0"})), DeleteStart(0, ["fork"]),
                  WithUpload(LinkedOnly(), ToFork({"obj0"})).(deletes := FORK_CHECKED))
  {
    hide Relied, SafeCopy, Resolvable, Reaches, Unused, NewRun;
    assert SafeDeletion(LinkedOnly().src, ["fork"]);
    hide SafeDeletion;
  }

  lemma ForkTakenAway()
    ensures RemoveRepo(WithUpload(LinkedOnly(), ToFork({"obj0"})).(deletes := FORK_CHECKED), "fork") ==
            Lone(MAIN, OBJ, map[0 := ToFork({"obj0"})], FORK_CHECKED, map[])
  {
    var none: map<Oid, int> := map[];
    assert map["src0" := None, "fork" := Some("src0")] - {"fork"} == map["src0" := None];
    assert map["src0" := OBJ, "fork" := none] - {"fork"} == map["src0" := OBJ];
    var nothing: set<Oid> := {};
    assert map["src0" := nothing, "fork" := nothing] - {"fork"} == map["src0" := nothing];
    assert map["src0" := MAIN, "fork" := NO_REFS] - {"fork"} == map["src0" := MAIN];
  }

  lemma ForkRemoved()
    ensures Leads(WithUpload(LinkedOnly(), ToFork({"obj0"})).(deletes := FORK_CHECKED), DeleteNext(0),
                  Lone(MAIN, OBJ, map[0 := ToFork({"obj0"})], FORK_GONE, map[]))
  {
    hide RemoveRepo, SafeDeletion;
    ForkTakenAway();
    assert FORK_CHECKED[0][1..] == [] && FORK_CHECKED[0 := []] == FORK_GONE;
  }

  lemma PushedThenDeleted()
    ensures Path(Lone(MAIN, OBJ, map[], map[], map[]), PushThenDelete(), Lone(MAIN, OBJ, map[0 := ToFork({"obj0"})], FORK_GONE, map[]))
  {
    hide Leads, Path, Lone, Forked, WithUpload;
    ForkLinked(map[]);
    StagedToFork();
    SeenThroughFork();
    ForkChecked();
    ForkRemoved();
    Walk([Lone(MAIN, OBJ, map[], map[], map[]), LinkedOnly(), WithUpload(LinkedOnly(), ToFork({})), WithUpload(LinkedOnly(), ToFork({"obj0"})),
          WithUpload(LinkedOnly(), ToFork({"obj0"})).(deletes := FORK_CHECKED), Lone(MAIN, OBJ, map[0 := ToFork({"obj0"})], FORK_GONE, map[])],
         PushThenDelete());
  }

  /** A repo of its own under the id of the fork. */
  ghost function Reused(refs: RefMap): State {
    State(100, map["src0" := None, "fork" := None], map["src0" := OBJ, "fork" := map[]], map["src0" := {}, "fork" := {}],
          map["src0" := MAIN, "fork" := refs], map[], map[0 := ToFork({"obj0"})], FORK_GONE, map[])
  }

  lemma CreatedAgain()
    ensures var s := Lone(MAIN, OBJ, map[0 := ToFork({"obj0"})], FORK_GONE, map[]);
            && Enabled(Leaves(), s, Create("fork")) && !Benign(Leaves(), s, Create("fork"))
            && Next(Leaves(), s, Create("fork")) == Reused(NO_REFS)
  {
    var s := Lone(MAIN, OBJ, map[0 := ToFork({"obj0"})], FORK_GONE, map[]);
    assert 0 in s.uploads && s.uploads[0].repo == "fork";
  }

  lemma AdvancedInReused()
    ensures Leads(Reused(NO_REFS), Advance(0, "main"), Reused(MAIN))
  {
    hide Enabled, Benign, Next;
    var s := Reused(NO_REFS);
    forall x ensures Reaches(Leaves(), "obj0", x) <==> x == "obj0" {
      LeafReachesItself("obj0", x);
    }
    assert Checked(Leaves(), ToFork({"obj0"}));
    AdvanceGives(s, 0, "main");
    assert NO_REFS["main" := "obj0"] == MAIN;
    assert s.refs["fork" := MAIN] == Reused(MAIN).refs;
  }

  lemma ReusedIsBroken()
    ensures !Healthy(Leaves(), Reused(MAIN))
  {
    var s := Reused(MAIN);
    ReachesSelf(Leaves(), "obj0");
    assert RefReaches(Leaves(), MAIN, "main", "obj0") && RefsReach(Leaves(), s, "fork", "obj0");
    forall a | InChain(s.src, "fork", a) ensures !StoredAt(s, a, "obj0") {
      var n: nat :| Uses(s.src, "fork", a, n);
      assert n == 0;
    }
    assert !Resolvable(s, "fork", "obj0");
  }

  /** A push to a fork is on its way while the fork is deleted and its id used for a repo of its own. */
  lemma ReusedIdGetsTheOldPush()
    ensures BreaksWith(Leaves(), Seed() + PushThenDelete(), Create("fork"), [Advance(0, "main")])
  {
    hide *;
    Seeded();
    PushedThenDeleted();
    CreatedAgain();
    AdvancedInReused();
    ReusedIsBroken();
    var s := Lone(MAIN, OBJ, map[0 := ToFork({"obj0"})], FORK_GONE, map[]);
    PathsJoin(EMPTY, Seed(), Lone(MAIN, OBJ, map[], map[], map[]), PushThenDelete(), s);
    Walk([Reused(NO_REFS), Reused(MAIN)], [Advance(0, "main")]);
    Breaks(Seed() + PushThenDelete(), s, Create("fork"), Reused(NO_REFS), [Advance(0, "main")], Reused(MAIN));
  }

  // ── a member removed while its refs are being read ───────────────────

  const BOTH: set<RepoId> := {"src0", "fork"}
  const LIVE: iset<Oid> := iset{"obj0"}
  const ONE_LEFT: map<RepoId, set<RefName>> := map["src0" := {}, "fork" := {"main"}]
  const NONE_LEFT: map<RepoId, set<RefName>> := map["src0" := {}, "fork" := {}]

  ghost function ForkHolds(listed: map<Oid, int>, closed: bool, toRead: map<RepoId, set<RefName>>): State {
    Emptied(OBJ, MAIN, map[], Sweeping(BOTH, LIVE, listed, closed, toRead))
  }

  ghost function ScanBegun(): seq<Action> {
    [DropRef("src0", "main"), RunStart(0, "src0", 50, BOTH), RunListOne(0, "obj0"), RunListDone(0), RunScanBegin(0, "src0"),
     RunScanBegin(0, "fork"), Stage(0, "src0", "obj0", None), See(0, "obj0"), DeleteStart(0, ["fork"])]
  }

  ghost function ReadCollectAdvance(): seq<Action> {
    [RunRead(0, "fork", "main"), RunDelete(0, "obj0"), Advance(0, "main")]
  }

  lemma MainDroppedAtSource()
    ensures Leads(Forked(MAIN, OBJ, MAIN, map[], map[], map[]), DropRef("src0", "main"), Emptied(OBJ, MAIN, map[], map[]))
  {
    hide Enabled, Benign, Next;
    var s := Forked(MAIN, OBJ, MAIN, map[], map[], map[]);
    DropRefGives(s, "src0", "main");
    assert MAIN - {"main"} == NO_REFS;
    assert s.refs["src0" := NO_REFS] == Emptied(OBJ, MAIN, map[], map[]).refs;
  }

  lemma ForkIsLive(x: Oid)
    ensures RefsReach(Leaves(), Emptied(OBJ, MAIN, map[], map[]), "fork", x) <==> x == "obj0"
    ensures NetworkReaches(Leaves(), Emptied(OBJ, MAIN, map[], map[]), BOTH, x) <==> x == "obj0"
    ensures !RefsReach(Leaves(), Emptied(OBJ, MAIN, map[], map[]), "src0", x)
  {
    LeafReachesItself("obj0", x);
    var s := Emptied(OBJ, MAIN, map[], map[]);
    assert RefReaches(Leaves(), MAIN, "main", x) <==> x == "obj0";
    assert RefsReach(Leaves(), s, "fork", x) <==> x == "obj0";
    assert "fork" in BOTH && !RefsReach(Leaves(), s, "src0", x);
  }

  lemma StartedOnFork()
    ensures Leads(Emptied(OBJ, MAIN, map[], map[]), RunStart(0, "src0", 50, BOTH), ForkHolds(map[], false, map[]))
  {
    hide RefsReach, NetworkReaches, SafeCopy, Resolvable, Reaches, InChain, SafeDeletion;
    var s := Emptied(OBJ, MAIN, map[], map[]);
    forall x ensures NetworkReaches(Leaves(), s, BOTH, x) <==> x == "obj0" {
      ForkIsLive(x);
    }
    assert NewRun(Leaves(), s, "src0", 50, BOTH).live == LIVE;
    forall r, x | Relied(Leaves(), s, r, x) ensures x == "obj0" {
      ForkIsLive(x);
    }
  }

  lemma ForkScanBegun()
    ensures Leads(ForkHolds(OBJ, true, map["src0" := {}]), RunScanBegin(0, "fork"), ForkHolds(OBJ, true, ONE_LEFT))
  {
    hide Leads, Enabled, Benign, Next;
    var s, t := ForkHolds(OBJ, true, map["src0" := {}]), ForkHolds(OBJ, true, ONE_LEFT);
    LeadsScanBegin(s, 0, "fork");
    assert MAIN.Keys == {"main"};
    assert s.runs[0].toRead["fork" := {"main"}] == ONE_LEFT;
    assert s.runs[0 := t.runs[0]] == t.runs;
  }

  lemma StagedDuringScan()
    ensures Leads(ForkHolds(OBJ, true, ONE_LEFT), Stage(0, "src0", "obj0", None), WithUpload(ForkHolds(OBJ, true, ONE_LEFT), Pushing()))
  {
    hide Relied, SafeCopy, Resolvable, Reaches, Unused, AwaitsRead, SafeDeletion, InScan, NewRun;
  }

  /** The object was live when the run started, so a push may rely on it. */
  lemma SeenDuringScan()
    ensures Leads(WithUpload(ForkHolds(OBJ, true, ONE_LEFT), Pushing()), See(0, "obj0"), WithUpload(ForkHolds(OBJ, true, ONE_LEFT), Pushed()))
  {
    hide Enabled, Benign, Next;
    var s, t := WithUpload(ForkHolds(OBJ, true, ONE_LEFT), Pushing()), WithUpload(ForkHolds(OBJ, true, ONE_LEFT), Pushed());
    ChainSelf(s.src, "src0");
    assert StoredAt(s, "src0", "obj0") && SafeAt(s, "src0", "obj0");
    assert Resolvable(s, "src0", "obj0") && SafeCopy(s, "src0", "obj0");
    SeeGives(s, 0, "obj0");
    assert {} + {"obj0"} == {"obj0"};
    assert s.uploads[0 := t.uploads[0]] == t.uploads;
  }

  ghost function DuringScan(): State {
    WithUpload(ForkHolds(OBJ, true, ONE_LEFT), Pushed()).(deletes := FORK_CHECKED)
  }

  lemma DeleteCheckedDuringScan()
    ensures Leads(WithUpload(ForkHolds(OBJ, true, ONE_LEFT), Pushed()), DeleteStart(0, ["fork"]), DuringScan())
  {
    hide Relied, SafeCopy, Resolvable, Reaches, Unused, NewRun;
    assert SafeDeletion(ForkHolds(OBJ, true, ONE_LEFT).src, ["fork"]);
    hide SafeDeletion;
  }

  lemma ScanIsUnderWay()
    ensures Path(Forked(MAIN, OBJ, MAIN, map[], map[], map[]), ScanBegun(), DuringScan())
  {
    hide Leads, OwnStep, Path, Forked, WithUpload, DuringScan, Sweeping, Emptied;
    MainDroppedAtSource();
    StartedOnFork();
    ListedOne(MAIN, map[], BOTH, LIVE);
    ListClosed(MAIN, map[], BOTH, LIVE);
    SourceScanned(MAIN, map[], BOTH, LIVE);
    ForkScanBegun();
    StagedDuringScan();
    SeenDuringScan();
    DeleteCheckedDuringScan();
    Walk([Forked(MAIN, OBJ, MAIN, map[], map[], map[]), Emptied(OBJ, MAIN, map[], map[]), ForkHolds(map[], false, map[]),
          ForkHolds(OBJ, false, map[]), ForkHolds(OBJ, true, map[]), ForkHolds(OBJ, true, map["src0" := {}]), ForkHolds(OBJ, true, ONE_LEFT),
          WithUpload(ForkHolds(OBJ, true, ONE_LEFT), Pushing()), WithUpload(ForkHolds(OBJ, true, ONE_LEFT), Pushed()), DuringScan()],
         ScanBegun());
  }

  ghost function ForkLost(refs: RefMap, loose: map<Oid, int>, listed: map<Oid, int>, toRead: map<RepoId, set<RefName>>): State {
    Lone(refs, loose, map[0 := Pushed()], FORK_GONE, Sweeping(BOTH, LIVE, listed, true, toRead))
  }

  lemma MemberTakenAway()
    ensures RemoveRepo(DuringScan(), "fork").(deletes := FORK_GONE) == ForkLost(NO_REFS, OBJ, OBJ, ONE_LEFT)
  {
    var none: map<Oid, int> := map[];
    assert map["src0" := None, "fork" := Some("src0")] - {"fork"} == map["src0" := None];
    assert map["src0" := OBJ, "fork" := none] - {"fork"} == map["src0" := OBJ];
    var nothing: set<Oid> := {};
    assert map["src0" := nothing, "fork" := nothing] - {"fork"} == map["src0" := nothing];
    assert map["src0" := NO_REFS, "fork" := MAIN] - {"fork"} == map["src0" := NO_REFS];
  }

  lemma MemberRemoved()
    ensures Enabled(Leaves(), DuringScan(), DeleteNext(0)) && !Benign(Leaves(), DuringScan(), DeleteNext(0))
    ensures Next(Leaves(), DuringScan(), DeleteNext(0)) == ForkLost(NO_REFS, OBJ, OBJ, ONE_LEFT)
  {
    hide RemoveRepo, SafeDeletion;
    var s := DuringScan();
    MemberTakenAway();
    assert FORK_CHECKED[0][1..] == [] && FORK_CHECKED[0 := []] == FORK_GONE;
    assert 0 in s.runs && "fork" in s.runs[0].toRead && "main" in s.runs[0].toRead["fork"];
    assert InScan(s, "fork");
  }

  lemma NothingRead()
    ensures Leads(ForkLost(NO_REFS, OBJ, OBJ, ONE_LEFT), RunRead(0, "fork", "main"), ForkLost(NO_REFS, OBJ, OBJ, NONE_LEFT))
  {
    hide Leads, Enabled, Benign, Next;
    var s, t := ForkLost(NO_REFS, OBJ, OBJ, ONE_LEFT), ForkLost(NO_REFS, OBJ, OBJ, NONE_LEFT);
    LeadsRead(s, 0, "fork", "main");
    assert Closure(Leaves(), s, "fork", "main") == NO_OBJECTS;
    assert NO_OBJECTS + NO_OBJECTS == NO_OBJECTS;
    assert {"main"} - {"main"} == {};
    assert ONE_LEFT["fork" := {}] == NONE_LEFT;
    assert s.runs[0 := t.runs[0]] == t.runs;
  }

  lemma LostObjectTaken()
    ensures Leads(ForkLost(NO_REFS, OBJ, OBJ, NONE_LEFT), RunDelete(0, "obj0"), ForkLost(NO_REFS, map[], map[], NONE_LEFT))
  {
    hide Leads, Enabled, Benign, Next;
    var s, t := ForkLost(NO_REFS, OBJ, OBJ, NONE_LEFT), ForkLost(NO_REFS, map[], map[], NONE_LEFT);
    LeadsDelete(s, 0, "obj0");
    assert OBJ - {"obj0"} == map[];
    assert s.runs[0 := t.runs[0]] == t.runs && s.loose["src0" := map[]] == t.loose;
  }

  lemma AdvancedAfterScan()
    ensures Leads(ForkLost(NO_REFS, map[], map[], NONE_LEFT), Advance(0, "main"), ForkLost(MAIN, map[], map[], NONE_LEFT))
  {
    hide Enabled, Benign, Next;
    var s := ForkLost(NO_REFS, map[], map[], NONE_LEFT);
    PushIsChecked();
    AdvanceGives(s, 0, "main");
    assert NO_REFS["main" := "obj0"] == MAIN;
    assert s.refs["src0" := MAIN] == ForkLost(MAIN, map[], map[], NONE_LEFT).refs;
  }

  lemma LostIsBroken()
    ensures !Healthy(Leaves(), ForkLost(MAIN, map[], map[], NONE_LEFT))
  {
    var s := ForkLost(MAIN, map[], map[], NONE_LEFT);
    ReachesSelf(Leaves(), "obj0");
    assert RefReaches(Leaves(), MAIN, "main", "obj0") && RefsReach(Leaves(), s, "src0", "obj0");
    assert forall a :: !StoredAt(s, a, "obj0");
    assert !Resolvable(s, "src0", "obj0");
  }

  lemma ReadCollectedAdvanced()
    ensures Path(ForkLost(NO_REFS, OBJ, OBJ, ONE_LEFT), ReadCollectAdvance(), ForkLost(MAIN, map[], map[], NONE_LEFT))
  {
    hide Leads, Path, ForkLost;
    NothingRead();
    LostObjectTaken();
    AdvancedAfterScan();
    Walk([ForkLost(NO_REFS, OBJ, OBJ, ONE_LEFT), ForkLost(NO_REFS, OBJ, OBJ, NONE_LEFT), ForkLost(NO_REFS, map[], map[], NONE_LEFT),
          ForkLost(MAIN, map[], map[], NONE_LEFT)], ReadCollectAdvance());
  }

  /**
   A push relies on an object that only a fork still reaches. The fork is removed after the run began to
   read its refs, the scan finds nothing, and the run takes the object.
   */
  lemma RemovalDuringScanLosesThePush()
    ensures BreaksWith(Leaves(), Seed() + (ForkAndCopy() + ScanBegun()), DeleteNext(0), ReadCollectAdvance())
  {
    hide *;
    Seeded();
    ForkedAndCopied();
    ScanIsUnderWay();
    MemberRemoved();
    ReadCollectedAdvanced();
    LostIsBroken();
    PathsJoin(Lone(MAIN, OBJ, map[], map[], map[]), ForkAndCopy(), Forked(MAIN, OBJ, MAIN, map[], map[], map[]), ScanBegun(), DuringScan());
    PathsJoin(EMPTY, Seed(), Lone(MAIN, OBJ, map[], map[], map[]), ForkAndCopy() + ScanBegun(), DuringScan());
    Breaks(Seed() + (ForkAndCopy() + ScanBegun()), DuringScan(), DeleteNext(0), ForkLost(NO_REFS, OBJ, OBJ, ONE_LEFT),
           ReadCollectAdvance(), ForkLost(MAIN, map[], map[], NONE_LEFT));
  }

  // ── a forced push to a ref that is still to be read ──────────────────

  const TWO: map<Oid, int> := map["obj0" := 0, "obj1" := 100]
  const NEW_ONLY: map<Oid, int> := map["obj1" := 100]
  const MOVED: RefMap := map["main" := "obj1"]

  ghost function Replacing(carried: set<Oid>): Upload {
    Upload("src0", "obj1", Some("obj0"), carried)
  }

  ghost function InRun(main: RefMap, loose: map<Oid, int>, listed: map<Oid, int>, closed: bool, toRead: map<RepoId, set<RefName>>,
                       reach: iset<Oid>): State {
    Forked(main, loose, MAIN, map[], map[], map[0 := Run("src0", 50, {"src0"}, LIVE, listed, closed, toRead, reach)])
  }

  ghost function PushOverMain(): seq<Action> {
    [WriteLoose("src0", {"obj1"}, {}), Stage(0, "src0", "obj1", Some("obj0")), See(0, "obj1")]
  }

  ghost function CollectMoved(): seq<Action> {
    [RunListOne(0, "obj0"), RunListDone(0), RunScanBegin(0, "src0"), RunRead(0, "src0", "main"), RunDelete(0, "obj0")]
  }

  lemma NewWritten()
    ensures Leads(InRun(MAIN, OBJ, map[], false, map[], NO_OBJECTS), WriteLoose("src0", {"obj1"}, {}),
                  InRun(MAIN, TWO, map[], false, map[], NO_OBJECTS))
  {
    hide Leads, Enabled, Benign, Next;
    var s := InRun(MAIN, OBJ, map[], false, map[], NO_OBJECTS);
    LeadsWrite(s, "src0", {"obj1"}, {});
    assert Stamped(OBJ, {"obj1"}, {}, 100) == TWO;
    assert s.loose["src0" := TWO] == InRun(MAIN, TWO, map[], false, map[], NO_OBJECTS).loose;
  }

  lemma NewStaged()
    ensures Leads(InRun(MAIN, TWO, map[], false, map[], NO_OBJECTS), Stage(0, "src0", "obj1", Some("obj0")),
                  WithUpload(InRun(MAIN, TWO, map[], false, map[], NO_OBJECTS), Replacing({})))
  {
    hide Relied, SafeCopy, Resolvable, Reaches, Unused, AwaitsRead, SafeDeletion, InScan, NewRun;
  }

  /** The new object is young, so the push may rely on it. */
  lemma NewSeen()
    ensures Leads(WithUpload(InRun(MAIN, TWO, map[], false, map[], NO_OBJECTS), Replacing({})), See(0, "obj1"),
                  WithUpload(InRun(MAIN, TWO, map[], false, map[], NO_OBJECTS), Replacing({"obj1"})))
  {
    hide Enabled, Benign, Next;
    var s := WithUpload(InRun(MAIN, TWO, map[], false, map[], NO_OBJECTS), Replacing({}));
    var t := WithUpload(InRun(MAIN, TWO, map[], false, map[], NO_OBJECTS), Replacing({"obj1"}));
    ChainSelf(s.src, "src0");
    assert Young(s, s.runs[0], "obj1");
    assert StoredAt(s, "src0", "obj1") && SafeAt(s, "src0", "obj1");
    assert Resolvable(s, "src0", "obj1") && SafeCopy(s, "src0", "obj1");
    SeeGives(s, 0, "obj1");
    assert {} + {"obj1"} == {"obj1"};
    assert s.uploads[0 := t.uploads[0]] == t.uploads;
  }

  lemma PushedOverMain()
    ensures Path(Forked(MAIN, OBJ, MAIN, map[], map[], Sweeping({"src0"}, iset{"obj0"}, map[], false, map[])), PushOverMain(),
                 WithUpload(InRun(MAIN, TWO, map[], false, map[], NO_OBJECTS), Replacing({"obj1"})))
  {
    assert InRun(MAIN, OBJ, map[], false, map[], NO_OBJECTS) ==
           Forked(MAIN, OBJ, MAIN, map[], map[], Sweeping({"src0"}, iset{"obj0"}, map[], false, map[]));
    hide Leads, Path, Forked, Sweeping, WithUpload, InRun;
    NewWritten();
    NewStaged();
    NewSeen();
    Walk([InRun(MAIN, OBJ, map[], false, map[], NO_OBJECTS), InRun(MAIN, TWO, map[], false, map[], NO_OBJECTS),
          WithUpload(InRun(MAIN, TWO, map[], false, map[], NO_OBJECTS), Replacing({})),
          WithUpload(InRun(MAIN, TWO, map[], false, map[], NO_OBJECTS), Replacing({"obj1"}))], PushOverMain());
  }

  ghost function Moved(loose: map<Oid, int>, listed: map<Oid, int>, closed: bool, toRead: map<RepoId, set<RefName>>, reach: iset<Oid>): State {
    WithUpload(InRun(MOVED, loose, listed, closed, toRead, reach), Replacing({"obj1"}))
  }

  lemma MainForced()
    ensures var s := WithUpload(InRun(MAIN, TWO, map[], false, map[], NO_OBJECTS), Replacing({"obj1"}));
            var a := Advance(0, "main");
            && Enabled(Leaves(), s, a) && !Benign(Leaves(), s, a) && Next(Leaves(), s, a) == Moved(TWO, map[], false, map[], NO_OBJECTS)
  {
    hide Enabled, Benign, Next;
    var s := WithUpload(InRun(MAIN, TWO, map[], false, map[], NO_OBJECTS), Replacing({"obj1"}));
    forall x ensures Reaches(Leaves(), "obj1", x) <==> x == "obj1" {
      LeafReachesItself("obj1", x);
    }
    assert Checked(Leaves(), Replacing({"obj1"}));
    assert ToBeRead(s.runs[0], "src0", "main") && AwaitsRead(s, "src0", "main");
    AdvanceGives(s, 0, "main");
    assert MAIN["main" := "obj1"] == MOVED;
    assert s.refs["src0" := MOVED] == Moved(TWO, map[], false, map[], NO_OBJECTS).refs;
  }

  lemma MovedListed()
    ensures Leads(Moved(TWO, map[], false, map[], NO_OBJECTS), RunListOne(0, "obj0"), Moved(TWO, OBJ, false, map[], NO_OBJECTS))
    ensures Leads(Moved(TWO, OBJ, false, map[], NO_OBJECTS), RunListDone(0), Moved(TWO, OBJ, true, map[], NO_OBJECTS))
  {
    hide Leads, Enabled, Benign, Next;
    var none: map<Oid, int> := map[];
    var s, t, u := Moved(TWO, none, false, map[], NO_OBJECTS), Moved(TWO, OBJ, false, map[], NO_OBJECTS), Moved(TWO, OBJ, true, map[], NO_OBJECTS);
    LeadsListOne(s, 0, "obj0");
    LeadsListDone(t, 0);
    assert none["obj0" := 0] == OBJ;
    assert s.runs[0 := t.runs[0]] == t.runs && t.runs[0 := u.runs[0]] == u.runs;
  }

  lemma MovedScanBegun()
    ensures Leads(Moved(TWO, OBJ, true, map[], NO_OBJECTS), RunScanBegin(0, "src0"), Moved(TWO, OBJ, true, map["src0" := {"main"}], NO_OBJECTS))
  {
    hide Leads, Enabled, Benign, Next;
    var s, t := Moved(TWO, OBJ, true, map[], NO_OBJECTS), Moved(TWO, OBJ, true, map["src0" := {"main"}], NO_OBJECTS);
    LeadsScanBegin(s, 0, "src0");
    assert MOVED.Keys == {"main"};
    assert s.runs[0].toRead["src0" := {"main"}] == t.runs[0].toRead;
    assert s.runs[0 := t.runs[0]] == t.runs;
  }

  lemma MovedRead()
    ensures Leads(Moved(TWO, OBJ, true, map["src0" := {"main"}], NO_OBJECTS), RunRead(0, "src0", "main"),
                  Moved(TWO, OBJ, true, map["src0" := {}], iset{"obj1"}))
  {
    hide Leads, Enabled, Benign, Next;
    var s, t := Moved(TWO, OBJ, true, map["src0" := {"main"}], NO_OBJECTS), Moved(TWO, OBJ, true, map["src0" := {}], iset{"obj1"});
    LeadsRead(s, 0, "src0", "main");
    forall x ensures x in Closure(Leaves(), s, "src0", "main") <==> x == "obj1" {
      LeafReachesItself("obj1", x);
    }
    assert NO_OBJECTS + Closure(Leaves(), s, "src0", "main") == iset{"obj1"};
    assert {"main"} - {"main"} == {};
    assert s.runs[0].toRead["src0" := {}] == t.runs[0].toRead;
    assert s.runs[0 := t.runs[0]] == t.runs;
  }

  lemma OldTaken()
    ensures Leads(Moved(TWO, OBJ, true, map["src0" := {}], iset{"obj1"}), RunDelete(0, "obj0"),
                  Moved(NEW_ONLY, map[], true, map["src0" := {}], iset{"obj1"}))
  {
    hide Leads, Enabled, Benign, Next;
    var s, t := Moved(TWO, OBJ, true, map["src0" := {}], iset{"obj1"}), Moved(NEW_ONLY, map[], true, map["src0" := {}], iset{"obj1"});
    LeadsDelete(s, 0, "obj0");
    assert OBJ - {"obj0"} == map[] && TWO - {"obj0"} == NEW_ONLY;
    assert s.runs[0 := t.runs[0]] == t.runs && s.loose["src0" := NEW_ONLY] == t.loose;
  }

  lemma MovedCollected()
    ensures Path(Moved(TWO, map[], false, map[], NO_OBJECTS), CollectMoved(), Moved(NEW_ONLY, map[], true, map["src0" := {}], iset{"obj1"}))
  {
    hide Leads, Path, Moved;
    MovedListed();
    MovedScanBegun();
    MovedRead();
    OldTaken();
    Walk([Moved(TWO, map[], false, map[], NO_OBJECTS), Moved(TWO, OBJ, false, map[], NO_OBJECTS), Moved(TWO, OBJ, true, map[], NO_OBJECTS),
          Moved(TWO, OBJ, true, map["src0" := {"main"}], NO_OBJECTS), Moved(TWO, OBJ, true, map["src0" := {}], iset{"obj1"}),
          Moved(NEW_ONLY, map[], true, map["src0" := {}], iset{"obj1"})], CollectMoved());
  }

  lemma MovedIsBroken()
    ensures !Healthy(Leaves(), Moved(NEW_ONLY, map[], true, map["src0" := {}], iset{"obj1"}))
  {
    SweptForkIsBroken(Moved(NEW_ONLY, map[], true, map["src0" := {}], iset{"obj1"}));
  }

  /** A forced push moves `main` of the source away before it is read; a fork made during the run still needs the old value. */
  lemma ForcedPushDuringRunBreaksTheFork()
    ensures BreaksWith(Leaves(), Seed() + (ForkInRun() + PushOverMain()), Advance(0, "main"), CollectMoved())
  {
    hide *;
    Seeded();
    ForkedInRun();
    PushedOverMain();
    MainForced();
    MovedCollected();
    MovedIsBroken();
    var run := Sweeping({"src0"}, iset{"obj0"}, map[], false, map[]);
    var s := WithUpload(InRun(MAIN, TWO, map[], false, map[], NO_OBJECTS), Replacing({"obj1"}));
    PathsJoin(Lone(MAIN, OBJ, map[], map[], map[]), ForkInRun(), Forked(MAIN, OBJ, MAIN, map[], map[], run), PushOverMain(), s);
    PathsJoin(EMPTY, Seed(), Lone(MAIN, OBJ, map[], map[], map[]), ForkInRun() + PushOverMain(), s);
    Breaks(Seed() + (ForkInRun() + PushOverMain()), s, Advance(0, "main"), Moved(TWO, map[], false, map[], NO_OBJECTS), CollectMoved(),
           Moved(NEW_ONLY, map[], true, map["src0" := {}], iset{"obj1"}));
  }
}
