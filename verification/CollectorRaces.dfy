/**
 Four histories from the empty server in which a single step is not benign and a ref ends up pointing
 into a hole. In the three that a collection brings about, that step is where it is decided.
 */
module CollectorRaces {
  import opened Base
  import opened Reachability
  import opened ForkRelation
  import opened Cascade
  import opened Collector
  import opened CollectorSafety
  import opened CollectorLimits

  /** A graph whose objects link to nothing. */
  ghost function Leaves(): Links {
    o => {}
  }

  lemma LeafReachesItself(a: Oid, b: Oid)
    ensures Reaches(Leaves(), a, b) <==> a == b
  {
    if a == b {
      ReachesSelf(Leaves(), a);
    } else if Reaches(Leaves(), a, b) {
      ReachesUnfold(Leaves(), a, b);
    }
  }

  /** From the empty server: benign steps, one step that is not, and benign steps to a ref into a hole. */
  ghost predicate BreaksWith(links: Links, before: seq<Action>, culprit: Action, rest: seq<Action>) {
    && Possible(links, EMPTY, before, true) && Possible(links, EMPTY, before, false)
    && var s := After(links, EMPTY, before);
    && Enabled(links, s, culprit) && !Benign(links, s, culprit)
    && var s' := Next(links, s, culprit);
    && Possible(links, s', rest, true) && Possible(links, s', rest, false)
    && !Healthy(links, After(links, s', rest))
  }

  // ── following a history ──────────────────────────────────────────────

  ghost predicate Leads(s: State, a: Action, t: State) {
    Enabled(Leaves(), s, a) && Benign(Leaves(), s, a) && Next(Leaves(), s, a) == t
  }

  /** A step that run 0 takes by itself. */
  ghost predicate Own(s: State, a: Action, t: State) {
    0 in s.runs && OwnStep(s, 0, a) && Leads(s, a, t) && 0 in t.runs
  }

  /** `acts` are benign from `s` and end in `t`. */
  ghost predicate Path(s: State, acts: seq<Action>, t: State) {
    && Possible(Leaves(), s, acts, true) && Possible(Leaves(), s, acts, false)
    && After(Leaves(), s, acts) == t
  }

  lemma {:induction false} Walk(states: seq<State>, acts: seq<Action>)
    requires |states| == |acts| + 1 && forall i :: 0 <= i < |acts| ==> Leads(states[i], acts[i], states[i + 1])
    ensures Path(states[0], acts, states[|acts|])
    decreases |acts|
  {
    if acts != [] {
      hide Enabled, Benign, Next;
      assert Leads(states[0], acts[0], states[1]);
      Walk(states[1..], acts[1..]);
    }
  }

  lemma {:induction false} PathsJoin(s: State, first: seq<Action>, t: State, second: seq<Action>, u: State)
    requires Path(s, first, t) && Path(t, second, u)
    ensures Path(s, first + second, u)
    decreases |first|
  {
    if first == [] {
      assert first + second == second;
    } else {
      var t0 := Next(Leaves(), s, first[0]);
      assert Path(t0, first[1..], t);
      PathsJoin(t0, first[1..], t, second, u);
      assert (first + second)[1..] == first[1..] + second;
      assert (first + second)[0] == first[0];
    }
  }

  lemma Breaks(before: seq<Action>, s: State, culprit: Action, s': State, rest: seq<Action>, t: State)
    requires Path(EMPTY, before, s) && Path(s', rest, t) && !Healthy(Leaves(), t)
    requires Enabled(Leaves(), s, culprit) && !Benign(Leaves(), s, culprit) && Next(Leaves(), s, culprit) == s'
    ensures BreaksWith(Leaves(), before, culprit, rest)
  {
  }

  // ── steps that are benign in every state ─────────────────────────────

  lemma LeadsWrite(s: State, repo: RepoId, objs: set<Oid>, touched: set<Oid>)
    requires repo in s.loose && touched <= s.loose[repo].Keys
    ensures Leads(s, WriteLoose(repo, objs, touched), s.(loose := s.loose[repo := Stamped(s.loose[repo], objs, touched, s.now)]))
  {
    hide Stamped;
  }

  lemma LeadsListOne(s: State, k: RunId, o: Oid)
    requires k in s.runs && !s.runs[k].closed && s.runs[k].cutoff <= s.now && o !in s.runs[k].listed
    requires s.runs[k].repo in s.loose && o in s.loose[s.runs[k].repo]
    ensures Leads(s, RunListOne(k, o),
                  s.(runs := s.runs[k := s.runs[k].(listed := s.runs[k].listed[o := s.loose[s.runs[k].repo][o]])]))
  {
  }

  lemma LeadsListDone(s: State, k: RunId)
    requires k in s.runs && !s.runs[k].closed && s.runs[k].cutoff <= s.now
    ensures Leads(s, RunListDone(k), s.(runs := s.runs[k := s.runs[k].(closed := true)]))
  {
  }

  lemma LeadsScanBegin(s: State, k: RunId, m: RepoId)
    requires k in s.runs && s.runs[k].closed && m in s.runs[k].network && m !in s.runs[k].toRead && m in s.refs
    ensures Leads(s, RunScanBegin(k, m), s.(runs := s.runs[k := s.runs[k].(toRead := s.runs[k].toRead[m := s.refs[m].Keys])]))
  {
  }

  lemma LeadsRead(s: State, k: RunId, m: RepoId, n: RefName)
    requires k in s.runs && m in s.runs[k].network && m in s.runs[k].toRead && n in s.runs[k].toRead[m]
    ensures var r := s.runs[k];
            Leads(s, RunRead(k, m, n), s.(runs := s.runs[k := r.(toRead := r.toRead[m := r.toRead[m] - {n}],
                                                                  reach := r.reach + Closure(Leaves(), s, m, n))]))
  {
    hide Closure;
  }

  lemma LeadsDelete(s: State, k: RunId, o: Oid)
    requires k in s.runs && s.runs[k].closed && ScanOver(s.runs[k]) && Doomed(s.runs[k], o)
    ensures Leads(s, RunDelete(k, o), Removed(s, k, o))
  {
    hide ScanOver, Doomed, Removed;
  }

  // ── steps that may be benign or not ──────────────────────────────────

  lemma AdvanceGives(s: State, u: UploadId, name: RefName)
    requires u in s.uploads && s.uploads[u].repo in s.refs && Checked(Leaves(), s.uploads[u])
    requires var refs := s.refs[s.uploads[u].repo];
             s.uploads[u].base.Some? ==> name in refs && refs[name] == s.uploads[u].base.value
    ensures var up := s.uploads[u];
            var a := Advance(u, name);
            && Enabled(Leaves(), s, a)
            && Next(Leaves(), s, a) == s.(refs := s.refs[up.repo := s.refs[up.repo][name := up.tip]])
            && (Benign(Leaves(), s, a) <==>
                (AwaitsRead(s, up.repo, name) && name in s.refs[up.repo] ==> Reaches(Leaves(), up.tip, s.refs[up.repo][name])))
  {
    hide Checked, AwaitsRead, Reaches;
  }

  lemma SeeGives(s: State, u: UploadId, x: Oid)
    requires u in s.uploads && Resolvable(s, s.uploads[u].repo, x)
    ensures var up := s.uploads[u];
            var a := See(u, x);
            && Enabled(Leaves(), s, a)
            && Next(Leaves(), s, a) == s.(uploads := s.uploads[u := up.(carried := up.carried + {x})])
            && (Benign(Leaves(), s, a) <==> SafeCopy(s, up.repo, x) || ChainReaches(Leaves(), s, up.repo, x))
  {
    hide Resolvable, SafeCopy, ChainReaches, RefsReach;
  }

  lemma DropRefGives(s: State, repo: RepoId, name: RefName)
    requires repo in s.refs && name in s.refs[repo]
    ensures var a := DropRef(repo, name);
            && Enabled(Leaves(), s, a)
            && Next(Leaves(), s, a) == s.(refs := s.refs[repo := s.refs[repo] - {name}])
            && (Benign(Leaves(), s, a) <==> !AwaitsRead(s, repo, name))
  {
    hide AwaitsRead;
  }

  // ── the server ───────────────────────────────────────────────────────

  /** The one object, written at second 0. */
  const OBJ: map<Oid, int> := map["obj0" := 0]

  const MAIN: RefMap := map["main" := "obj0"]

  const NO_REFS: RefMap := map[]

  /** A lone repo `src0` at second 100. */
  ghost function Lone(main: RefMap, loose: map<Oid, int>, uploads: map<UploadId, Upload>, deletes: map<DeleteId, seq<RepoId>>,
                      runs: map<RunId, Run>): State {
    State(100, map["src0" := None], map["src0" := loose], map["src0" := {}], map["src0" := main], map[], uploads, deletes, runs)
  }

  /** `src0` and its fork. */
  ghost function Forked(main: RefMap, loose: map<Oid, int>, fork: RefMap, snaps: map<RepoId, RefMap>,
                        deletes: map<DeleteId, seq<RepoId>>, runs: map<RunId, Run>): State {
    State(100, map["src0" := None, "fork" := Some("src0")], map["src0" := loose, "fork" := map[]],
          map["src0" := {}, "fork" := {}], map["src0" := main, "fork" := fork], snaps, map[], deletes, runs)
  }

  /** A collection of `src0` with the cutoff at second 50. */
  ghost function Sweeping(network: set<RepoId>, live: iset<Oid>, listed: map<Oid, int>, closed: bool,
                          toRead: map<RepoId, set<RefName>>): map<RunId, Run> {
    map[0 := Run("src0", 50, network, live, listed, closed, toRead, NO_OBJECTS)]
  }

  /** A push of the one object, before and after its walk. */
  ghost function Pushing(): Upload {
    Upload("src0", "obj0", None, {})
  }

  ghost function Pushed(): Upload {
    Upload("src0", "obj0", None, {"obj0"})
  }

  ghost function Early(loose: map<Oid, int>, main: RefMap, uploads: map<UploadId, Upload>): State {
    Lone(main, loose, uploads, map[], map[]).(now := 0)
  }

  lemma Created()
    ensures Leads(EMPTY, Create("src0"), Early(map[], NO_REFS, map[]))
  {
  }

  lemma Written()
    ensures Leads(Early(map[], NO_REFS, map[]), WriteLoose("src0", {"obj0"}, {}), Early(OBJ, NO_REFS, map[]))
  {
    hide Leads, Enabled, Benign, Next;
    var s := Early(map[], NO_REFS, map[]);
    LeadsWrite(s, "src0", {"obj0"}, {});
    assert Stamped(map[], {"obj0"}, {}, 0) == OBJ;
    assert s.loose["src0" := OBJ] == Early(OBJ, NO_REFS, map[]).loose;
  }

  lemma Staged()
    ensures Leads(Early(OBJ, NO_REFS, map[]), Stage(0, "src0", "obj0", None), Early(OBJ, NO_REFS, map[0 := Pushing()]))
  {
  }

  lemma Seen()
    ensures Leads(Early(OBJ, NO_REFS, map[0 := Pushing()]), See(0, "obj0"), Early(OBJ, NO_REFS, map[0 := Pushed()]))
  {
    hide SafeDeletion, Unused, Snapshot;
    var s := Early(OBJ, NO_REFS, map[0 := Pushing()]);
    ChainSelf(s.src, "src0");
    assert StoredAt(s, "src0", "obj0") && SafeAt(s, "src0", "obj0");
    assert Resolvable(s, "src0", "obj0") && SafeCopy(s, "src0", "obj0");
    assert Pushing().(carried := {} + {"obj0"}) == Pushed();
  }

  lemma PushIsChecked()
    ensures Checked(Leaves(), Pushed())
  {
    forall x ensures Reaches(Leaves(), "obj0", x) <==> x == "obj0" {
      LeafReachesItself("obj0", x);
    }
  }

  lemma Advanced()
    ensures Leads(Early(OBJ, NO_REFS, map[0 := Pushed()]), Advance(0, "main"), Early(OBJ, MAIN, map[0 := Pushed()]))
  {
    PushIsChecked();
    hide Checked;
    assert NO_REFS["main" := "obj0"] == MAIN;
  }

  lemma Dropped()
    ensures Leads(Early(OBJ, MAIN, map[0 := Pushed()]), Drop(0), Early(OBJ, MAIN, map[]))
  {
    hide Relied, SafeCopy, Resolvable, Reaches, Unused, AwaitsRead, SafeDeletion, InScan, NewRun, AddRepo, RemoveRepo, Outlasts;
    assert map[0 := Pushed()] - {0} == map[];
  }

  lemma Aged(main: RefMap)
    ensures Leads(Early(OBJ, main, map[]), Tick(100), Lone(main, OBJ, map[], map[], map[]))
  {
    hide Relied, SafeCopy, Resolvable, Reaches, Unused, AwaitsRead, SafeDeletion, InScan, NewRun, AddRepo, RemoveRepo, Outlasts;
  }

  ghost function Seed(): seq<Action> {
    [Create("src0"), WriteLoose("src0", {"obj0"}, {}), Stage(0, "src0", "obj0", None), See(0, "obj0"), Advance(0, "main"), Drop(0),
     Tick(100)]
  }

  /** The repo, its object and its `main` come about by a push and a pause. */
  lemma Seeded()
    ensures Path(EMPTY, Seed(), Lone(MAIN, OBJ, map[], map[], map[]))
  {
    Created();
    Written();
    Staged();
    Seen();
    Advanced();
    Dropped();
    Aged(MAIN);
    SeedIs();
    hide *;
    Walk([EMPTY, Early(map[], NO_REFS, map[]), Early(OBJ, NO_REFS, map[]), Early(OBJ, NO_REFS, map[0 := Pushing()]),
          Early(OBJ, NO_REFS, map[0 := Pushed()]),
          Early(OBJ, MAIN, map[0 := Pushed()]), Early(OBJ, MAIN, map[]), Lone(MAIN, OBJ, map[], map[], map[])],
         Seed());
  }

  lemma SeedIs()
    ensures Seed() == [Create("src0"), WriteLoose("src0", {"obj0"}, {}), Stage(0, "src0", "obj0", None), See(0, "obj0"), Advance(0, "main"), Drop(0),
     Tick(100)]
  {
  }

  // ── steps that several histories share ───────────────────────────────

  lemma ForkLinked(runs: map<RunId, Run>)
    requires forall k :: k in runs ==> "fork" !in runs[k].network
    ensures Leads(Lone(MAIN, OBJ, map[], map[], runs), ForkLink("src0", "fork"), Forked(MAIN, OBJ, NO_REFS, map[], map[], runs))
  {
  }

  lemma SnapshotTaken(deletes: map<DeleteId, seq<RepoId>>, runs: map<RunId, Run>)
    ensures Leads(Forked(MAIN, OBJ, NO_REFS, map[], deletes, runs), SnapshotRead("fork", "main"),
                  Forked(MAIN, OBJ, NO_REFS, map["fork" := MAIN], deletes, runs))
  {
    assert NO_REFS["main" := "obj0"] == MAIN;
  }

  lemma SnapshotWritten(main: RefMap, loose: map<Oid, int>, deletes: map<DeleteId, seq<RepoId>>, runs: map<RunId, Run>)
    ensures Leads(Forked(main, loose, NO_REFS, map["fork" := MAIN], deletes, runs), SnapshotWrite("fork"),
                  Forked(main, loose, MAIN, map[], deletes, runs))
  {
    assert MAIN + NO_REFS == MAIN;
    assert map["fork" := MAIN] - {"fork"} == map[];
  }

  /** The fork's `main` names an object that nobody stores any more. */
  lemma SweptForkIsBroken(s: State)
    requires s.refs.Keys >= {"fork"} && s.refs["fork"] == MAIN && forall a :: !StoredAt(s, a, "obj0")
    ensures !Healthy(Leaves(), s)
  {
    ReachesSelf(Leaves(), "obj0");
    assert RefReaches(Leaves(), s.refs["fork"], "main", "obj0");
    assert RefsReach(Leaves(), s, "fork", "obj0") && !Resolvable(s, "fork", "obj0");
  }

  ghost function Emptied(loose: map<Oid, int>, fork: RefMap, snaps: map<RepoId, RefMap>, runs: map<RunId, Run>): State {
    Forked(NO_REFS, loose, fork, snaps, map[], runs)
  }

  lemma ListedOne(fork: RefMap, snaps: map<RepoId, RefMap>, network: set<RepoId>, live: iset<Oid>)
    ensures Own(Emptied(OBJ, fork, snaps, Sweeping(network, live, map[], false, map[])), RunListOne(0, "obj0"),
                  Emptied(OBJ, fork, snaps, Sweeping(network, live, OBJ, false, map[])))
  {
    hide Leads, Enabled, Benign, Next;
    var none: map<Oid, int> := map[];
    var s, t := Emptied(OBJ, fork, snaps, Sweeping(network, live, none, false, map[])), Emptied(OBJ, fork, snaps, Sweeping(network, live, OBJ, false, map[]));
    LeadsListOne(s, 0, "obj0");
    assert none["obj0" := 0] == OBJ;
    assert s.runs[0 := t.runs[0]] == t.runs;
  }

  lemma ListClosed(fork: RefMap, snaps: map<RepoId, RefMap>, network: set<RepoId>, live: iset<Oid>)
    ensures Own(Emptied(OBJ, fork, snaps, Sweeping(network, live, OBJ, false, map[])), RunListDone(0),
                  Emptied(OBJ, fork, snaps, Sweeping(network, live, OBJ, true, map[])))
  {
    hide Leads, Enabled, Benign, Next;
    var s, t := Emptied(OBJ, fork, snaps, Sweeping(network, live, OBJ, false, map[])), Emptied(OBJ, fork, snaps, Sweeping(network, live, OBJ, true, map[]));
    LeadsListDone(s, 0);
    assert s.runs[0 := t.runs[0]] == t.runs;
  }

  lemma SourceScanned(fork: RefMap, snaps: map<RepoId, RefMap>, network: set<RepoId>, live: iset<Oid>)
    requires "src0" in network
    ensures Own(Emptied(OBJ, fork, snaps, Sweeping(network, live, OBJ, true, map[])), RunScanBegin(0, "src0"),
                  Emptied(OBJ, fork, snaps, Sweeping(network, live, OBJ, true, map["src0" := {}])))
  {
    hide Leads, Enabled, Benign, Next;
    var s := Emptied(OBJ, fork, snaps, Sweeping(network, live, OBJ, true, map[]));
    var t := Emptied(OBJ, fork, snaps, Sweeping(network, live, OBJ, true, map["src0" := {}]));
    LeadsScanBegin(s, 0, "src0");
    assert NO_REFS.Keys == {};
    assert s.runs[0].toRead["src0" := {}] == t.runs[0].toRead;
    assert s.runs[0 := t.runs[0]] == t.runs;
  }

  lemma ObjectTaken(fork: RefMap, snaps: map<RepoId, RefMap>, network: set<RepoId>, live: iset<Oid>, toRead: map<RepoId, set<RefName>>)
    requires forall m :: m in network ==> m in toRead && toRead[m] == {}
    ensures Own(Emptied(OBJ, fork, snaps, Sweeping(network, live, OBJ, true, toRead)), RunDelete(0, "obj0"),
                  Emptied(map[], fork, snaps, Sweeping(network, live, map[], true, toRead)))
  {
    hide Leads, Enabled, Benign, Next;
    var s := Emptied(OBJ, fork, snaps, Sweeping(network, live, OBJ, true, toRead));
    var t := Emptied(map[], fork, snaps, Sweeping(network, live, map[], true, toRead));
    LeadsDelete(s, 0, "obj0");
    assert OBJ - {"obj0"} == map[];
    assert s.runs[0 := t.runs[0]] == t.runs && s.loose["src0" := map[]] == t.loose;
  }

  // ── a ref read late: fork during the run, then the source drops its ref ─

  lemma MainIsLive(x: Oid)
    ensures RefsReach(Leaves(), Lone(MAIN, OBJ, map[], map[], map[]), "src0", x) <==> x == "obj0"
    ensures NetworkReaches(Leaves(), Lone(MAIN, OBJ, map[], map[], map[]), {"src0"}, x) <==> x == "obj0"
  {
    LeafReachesItself("obj0", x);
    assert RefReaches(Leaves(), MAIN, "main", x) <==> x == "obj0";
    assert RefsReach(Leaves(), Lone(MAIN, OBJ, map[], map[], map[]), "src0", x) <==> x == "obj0";
  }

  lemma Started()
    ensures Leads(Lone(MAIN, OBJ, map[], map[], map[]), RunStart(0, "src0", 50, {"src0"}),
                  Lone(MAIN, OBJ, map[], map[], Sweeping({"src0"}, iset{"obj0"}, map[], false, map[])))
  {
    hide RefsReach, NetworkReaches, SafeCopy, Resolvable, Reaches, InChain, SafeDeletion;
    var s := Lone(MAIN, OBJ, map[], map[], map[]);
    forall x ensures NetworkReaches(Leaves(), s, {"src0"}, x) <==> x == "obj0" {
      MainIsLive(x);
    }
    assert NewRun(Leaves(), s, "src0", 50, {"src0"}).live == iset{"obj0"};
    forall x | Relied(Leaves(), s, "src0", x) ensures x == "obj0" {
      MainIsLive(x);
    }
  }

  ghost function ForkInRun(): seq<Action> {
    [RunStart(0, "src0", 50, {"src0"}), ForkLink("src0", "fork"), SnapshotRead("fork", "main"), SnapshotWrite("fork")]
  }

  ghost function Collect(): seq<Action> {
    [RunListOne(0, "obj0"), RunListDone(0), RunScanBegin(0, "src0"), RunDelete(0, "obj0")]
  }

  lemma ForkedInRun()
    ensures var run := Sweeping({"src0"}, iset{"obj0"}, map[], false, map[]);
            Path(Lone(MAIN, OBJ, map[], map[], map[]), ForkInRun(), Forked(MAIN, OBJ, MAIN, map[], map[], run))
  {
    hide Leads, Path, Lone, Forked;
    var run := Sweeping({"src0"}, iset{"obj0"}, map[], false, map[]);
    Started();
    ForkLinked(run);
    SnapshotTaken(map[], run);
    SnapshotWritten(MAIN, OBJ, map[], run);
    Walk([Lone(MAIN, OBJ, map[], map[], map[]), Lone(MAIN, OBJ, map[], map[], run), Forked(MAIN, OBJ, NO_REFS, map[], map[], run),
          Forked(MAIN, OBJ, NO_REFS, map["fork" := MAIN], map[], run), Forked(MAIN, OBJ, MAIN, map[], map[], run)], ForkInRun());
  }

  lemma Collected()
    ensures Path(Emptied(OBJ, MAIN, map[], Sweeping({"src0"}, iset{"obj0"}, map[], false, map[])), Collect(),
                 Emptied(map[], MAIN, map[], Sweeping({"src0"}, iset{"obj0"}, map[], true, map["src0" := {}])))
  {
    hide Leads, OwnStep, Path, Emptied, Sweeping;
    var network, live, scanned := {"src0"}, iset{"obj0"}, map["src0" := {}];
    ListedOne(MAIN, map[], network, live);
    ListClosed(MAIN, map[], network, live);
    SourceScanned(MAIN, map[], network, live);
    ObjectTaken(MAIN, map[], network, live, scanned);
    Walk([Emptied(OBJ, MAIN, map[], Sweeping(network, live, map[], false, map[])),
          Emptied(OBJ, MAIN, map[], Sweeping(network, live, OBJ, false, map[])),
          Emptied(OBJ, MAIN, map[], Sweeping(network, live, OBJ, true, map[])),
          Emptied(OBJ, MAIN, map[], Sweeping(network, live, OBJ, true, scanned)),
          Emptied(map[], MAIN, map[], Sweeping(network, live, map[], true, scanned))], Collect());
  }

  lemma MainDroppedInRun()
    ensures var s := Forked(MAIN, OBJ, MAIN, map[], map[], Sweeping({"src0"}, iset{"obj0"}, map[], false, map[]));
            var a := DropRef("src0", "main");
            && Enabled(Leaves(), s, a) && !Benign(Leaves(), s, a)
            && Next(Leaves(), s, a) == Emptied(OBJ, MAIN, map[], Sweeping({"src0"}, iset{"obj0"}, map[], false, map[]))
  {
    var s := Forked(MAIN, OBJ, MAIN, map[], map[], Sweeping({"src0"}, iset{"obj0"}, map[], false, map[]));
    assert ToBeRead(s.runs[0], "src0", "main");
    assert MAIN - {"main"} == NO_REFS;
  }

  /**
   The network has a blind spot. A fork made during the run inherits `main`; when the source then deletes
   its own `main` before it is read, the run removes the object the fork still needs.
   */
  lemma ForkThenRefDeleteBreaksTheFork()
    ensures BreaksWith(Leaves(), Seed() + ForkInRun(), DropRef("src0", "main"), Collect())
  {
    hide *;
    Seeded();
    ForkedInRun();
    MainDroppedInRun();
    Collected();
    CollectedIsBroken();
    var run := Sweeping({"src0"}, iset{"obj0"}, map[], false, map[]);
    PathsJoin(EMPTY, Seed(), Lone(MAIN, OBJ, map[], map[], map[]), ForkInRun(), Forked(MAIN, OBJ, MAIN, map[], map[], run));
    Breaks(Seed() + ForkInRun(), Forked(MAIN, OBJ, MAIN, map[], map[], run), DropRef("src0", "main"),
           Emptied(OBJ, MAIN, map[], run), Collect(),
           Emptied(map[], MAIN, map[], Sweeping({"src0"}, iset{"obj0"}, map[], true, map["src0" := {}])));
  }

  lemma CollectedIsBroken()
    ensures !Healthy(Leaves(), Emptied(map[], MAIN, map[], Sweeping({"src0"}, iset{"obj0"}, map[], true, map["src0" := {}])))
  {
    SweptForkIsBroken(Emptied(map[], MAIN, map[], Sweeping({"src0"}, iset{"obj0"}, map[], true, map["src0" := {}])));
  }

  // ── a snapshot in flight: read, dropped at the source, collected, written ─

  ghost function ReadThenDrop(): seq<Action> {
    [ForkLink("src0", "fork"), SnapshotRead("fork", "main"), DropRef("src0", "main")]
  }

  ghost function CollectThenWrite(): seq<Action> {
    [RunListOne(0, "obj0"), RunListDone(0), RunScanBegin(0, "src0"), RunScanBegin(0, "fork"), RunDelete(0, "obj0"), SnapshotWrite("fork")]
  }

  lemma MainDropped()
    ensures Leads(Forked(MAIN, OBJ, NO_REFS, map["fork" := MAIN], map[], map[]), DropRef("src0", "main"),
                  Emptied(OBJ, NO_REFS, map["fork" := MAIN], map[]))
  {
    hide Enabled, Benign, Next;
    var s := Forked(MAIN, OBJ, NO_REFS, map["fork" := MAIN], map[], map[]);
    DropRefGives(s, "src0", "main");
    assert MAIN - {"main"} == NO_REFS;
    assert s.refs["src0" := NO_REFS] == Emptied(OBJ, NO_REFS, map["fork" := MAIN], map[]).refs;
  }

  lemma RefsReadAndDropped()
    ensures Path(Lone(MAIN, OBJ, map[], map[], map[]), ReadThenDrop(), Emptied(OBJ, NO_REFS, map["fork" := MAIN], map[]))
  {
    hide Leads, Path, Lone, Forked, Emptied;
    ForkLinked(map[]);
    SnapshotTaken(map[], map[]);
    MainDropped();
    Walk([Lone(MAIN, OBJ, map[], map[], map[]), Forked(MAIN, OBJ, NO_REFS, map[], map[], map[]),
          Forked(MAIN, OBJ, NO_REFS, map["fork" := MAIN], map[], map[]), Emptied(OBJ, NO_REFS, map["fork" := MAIN], map[])],
         ReadThenDrop());
  }

  lemma StartedBlind()
    ensures var s := Emptied(OBJ, NO_REFS, map["fork" := MAIN], map[]);
            var a := RunStart(0, "src0", 50, {"src0", "fork"});
            && Enabled(Leaves(), s, a) && !Benign(Leaves(), s, a)
            && Next(Leaves(), s, a) ==
               Emptied(OBJ, NO_REFS, map["fork" := MAIN], Sweeping({"src0", "fork"}, NO_OBJECTS, map[], false, map[]))
  {
    var s := Emptied(OBJ, NO_REFS, map["fork" := MAIN], map[]);
    var a := RunStart(0, "src0", 50, {"src0", "fork"});
    var s' := Emptied(OBJ, NO_REFS, map["fork" := MAIN], Sweeping({"src0", "fork"}, NO_OBJECTS, map[], false, map[]));
    assert forall m, x :: !RefsReach(Leaves(), s, m, x);
    assert forall x :: !NetworkReaches(Leaves(), s, {"src0", "fork"}, x);
    assert NewRun(Leaves(), s, "src0", 50, {"src0", "fork"}).live == NO_OBJECTS;
    assert Next(Leaves(), s, a) == s';
    ReachesSelf(Leaves(), "obj0");
    assert RefReaches(Leaves(), Snapshot(s, "fork"), "main", "obj0") && Relied(Leaves(), s, "fork", "obj0");
    ChainSelf(s.src, "src0");
    ChainUp(s.src, "fork", "src0", "src0");
    assert !Outlasts(s', 0, "obj0") && forall b :: !SafeAt(s', b, "obj0");
  }

  lemma ForkScanned(network: set<RepoId>)
    requires "fork" in network
    ensures Own(Emptied(OBJ, NO_REFS, map["fork" := MAIN], Sweeping(network, NO_OBJECTS, OBJ, true, map["src0" := {}])),
                  RunScanBegin(0, "fork"),
                  Emptied(OBJ, NO_REFS, map["fork" := MAIN], Sweeping(network, NO_OBJECTS, OBJ, true, map["src0" := {}, "fork" := {}])))
  {
    hide Leads, Enabled, Benign, Next;
    var s := Emptied(OBJ, NO_REFS, map["fork" := MAIN], Sweeping(network, NO_OBJECTS, OBJ, true, map["src0" := {}]));
    var t := Emptied(OBJ, NO_REFS, map["fork" := MAIN], Sweeping(network, NO_OBJECTS, OBJ, true, map["src0" := {}, "fork" := {}]));
    LeadsScanBegin(s, 0, "fork");
    assert NO_REFS.Keys == {};
    assert s.runs[0].toRead["fork" := {}] == t.runs[0].toRead;
    assert s.runs[0 := t.runs[0]] == t.runs;
  }

  lemma CollectedThenWritten()
    ensures Path(Emptied(OBJ, NO_REFS, map["fork" := MAIN], Sweeping({"src0", "fork"}, NO_OBJECTS, map[], false, map[])),
                 CollectThenWrite(),
                 Emptied(map[], MAIN, map[], Sweeping({"src0", "fork"}, NO_OBJECTS, map[], true, map["src0" := {}, "fork" := {}])))
  {
    hide Leads, OwnStep, Path, Sweeping;
    var network, snaps, live := {"src0", "fork"}, map["fork" := MAIN], NO_OBJECTS;
    var some, all := map["src0" := {}], map["src0" := {}, "fork" := {}];
    ListedOne(NO_REFS, snaps, network, live);
    ListClosed(NO_REFS, snaps, network, live);
    SourceScanned(NO_REFS, snaps, network, live);
    ForkScanned(network);
    ObjectTaken(NO_REFS, snaps, network, live, all);
    SnapshotWritten(NO_REFS, map[], map[], Sweeping(network, live, map[], true, all));
    Walk([Emptied(OBJ, NO_REFS, snaps, Sweeping(network, live, map[], false, map[])),
          Emptied(OBJ, NO_REFS, snaps, Sweeping(network, live, OBJ, false, map[])),
          Emptied(OBJ, NO_REFS, snaps, Sweeping(network, live, OBJ, true, map[])),
          Emptied(OBJ, NO_REFS, snaps, Sweeping(network, live, OBJ, true, some)),
          Emptied(OBJ, NO_REFS, snaps, Sweeping(network, live, OBJ, true, all)),
          Emptied(map[], NO_REFS, snaps, Sweeping(network, live, map[], true, all)),
          Emptied(map[], MAIN, map[], Sweeping(network, live, map[], true, all))], CollectThenWrite());
  }

  /**
   A fork has read `main` of its source and not yet written it. The source drops `main`, which no run can
   see coming, and a whole collection takes the object before the fork writes its refs.
   */
  lemma SnapshotInFlightBreaksTheFork()
    ensures BreaksWith(Leaves(), Seed() + ReadThenDrop(), RunStart(0, "src0", 50, {"src0", "fork"}), CollectThenWrite())
  {
    hide *;
    Seeded();
    RefsReadAndDropped();
    StartedBlind();
    CollectedThenWritten();
    WrittenIsBroken();
    var s := Emptied(OBJ, NO_REFS, map["fork" := MAIN], map[]);
    PathsJoin(EMPTY, Seed(), Lone(MAIN, OBJ, map[], map[], map[]), ReadThenDrop(), s);
    Breaks(Seed() + ReadThenDrop(), s, RunStart(0, "src0", 50, {"src0", "fork"}),
           Emptied(OBJ, NO_REFS, map["fork" := MAIN], Sweeping({"src0", "fork"}, NO_OBJECTS, map[], false, map[])),
           CollectThenWrite(),
           Emptied(map[], MAIN, map[], Sweeping({"src0", "fork"}, NO_OBJECTS, map[], true, map["src0" := {}, "fork" := {}])));
  }

  lemma WrittenIsBroken()
    ensures !Healthy(Leaves(), Emptied(map[], MAIN, map[],
                                       Sweeping({"src0", "fork"}, NO_OBJECTS, map[], true, map["src0" := {}, "fork" := {}])))
  {
    SweptForkIsBroken(Emptied(map[], MAIN, map[],
                              Sweeping({"src0", "fork"}, NO_OBJECTS, map[], true, map["src0" := {}, "fork" := {}])));
  }

  // ── a fork between the check and the removal of a delete request ─────

  ghost function CheckDelete(): seq<Action> {
    [DeleteStart(0, ["src0"])]
  }

  ghost function CopyThenRemove(): seq<Action> {
    [SnapshotRead("fork", "main"), SnapshotWrite("fork"), DeleteNext(0)]
  }

  const CHECKED: map<DeleteId, seq<RepoId>> := map[0 := ["src0"]]

  ghost function Orphaned(): State {
    State(100, map["fork" := Some("src0")], map["fork" := map[]], map["fork" := {}], map["fork" := MAIN], map[], map[], map[0 := []], map[])
  }

  lemma DeleteChecked()
    ensures Path(Lone(MAIN, OBJ, map[], map[], map[]), CheckDelete(), Lone(MAIN, OBJ, map[], CHECKED, map[]))
  {
    var s := Lone(MAIN, OBJ, map[], map[], map[]);
    assert SafeDeletion(s.src, ["src0"]);
    assert Leads(s, DeleteStart(0, ["src0"]), Lone(MAIN, OBJ, map[], CHECKED, map[]));
    hide Leads, Path, Lone;
    Walk([s, Lone(MAIN, OBJ, map[], CHECKED, map[])], CheckDelete());
  }

  lemma ForkedAfterCheck()
    ensures var s := Lone(MAIN, OBJ, map[], CHECKED, map[]);
            var a := ForkLink("src0", "fork");
            && Enabled(Leaves(), s, a) && !Benign(Leaves(), s, a)
            && Next(Leaves(), s, a) == Forked(MAIN, OBJ, NO_REFS, map[], CHECKED, map[])
  {
    assert 0 in CHECKED && "src0" in CHECKED[0];
  }

  lemma SourceRemoved()
    ensures Leads(Forked(MAIN, OBJ, MAIN, map[], CHECKED, map[]), DeleteNext(0), Orphaned())
  {
    SourceTakenAway();
    assert CHECKED[0][1..] == [] && CHECKED[0 := []] == map[0 := []];
    hide RemoveRepo, SafeDeletion;
  }

  lemma SourceTakenAway()
    ensures RemoveRepo(Forked(MAIN, OBJ, MAIN, map[], CHECKED, map[]), "src0") == Orphaned().(deletes := CHECKED)
  {
    var none: map<Oid, int> := map[];
    assert map["src0" := None, "fork" := Some("src0")] - {"src0"} == map["fork" := Some("src0")];
    assert map["src0" := OBJ, "fork" := none] - {"src0"} == map["fork" := none];
    var nothing: set<Oid> := {};
    assert map["src0" := nothing, "fork" := nothing] - {"src0"} == map["fork" := nothing];
    assert map["src0" := MAIN, "fork" := MAIN] - {"src0"} == map["fork" := MAIN];
  }

  lemma CopiedThenRemoved()
    ensures Path(Forked(MAIN, OBJ, NO_REFS, map[], CHECKED, map[]), CopyThenRemove(), Orphaned())
  {
    hide Leads, Path, Forked, Orphaned;
    SnapshotTaken(CHECKED, map[]);
    SnapshotWritten(MAIN, OBJ, CHECKED, map[]);
    SourceRemoved();
    Walk([Forked(MAIN, OBJ, NO_REFS, map[], CHECKED, map[]), Forked(MAIN, OBJ, NO_REFS, map["fork" := MAIN], CHECKED, map[]),
          Forked(MAIN, OBJ, MAIN, map[], CHECKED, map[]), Orphaned()], CopyThenRemove());
  }

  /** A delete request finds no fork; the repo is forked before it is removed, and the fork loses its objects. */
  lemma ForkAfterDeleteCheckIsOrphaned()
    ensures BreaksWith(Leaves(), Seed() + CheckDelete(), ForkLink("src0", "fork"), CopyThenRemove())
  {
    hide *;
    Seeded();
    DeleteChecked();
    ForkedAfterCheck();
    CopiedThenRemoved();
    OrphanedIsBroken();
    var s := Lone(MAIN, OBJ, map[], CHECKED, map[]);
    PathsJoin(EMPTY, Seed(), Lone(MAIN, OBJ, map[], map[], map[]), CheckDelete(), s);
    Breaks(Seed() + CheckDelete(), s, ForkLink("src0", "fork"), Forked(MAIN, OBJ, NO_REFS, map[], CHECKED, map[]), CopyThenRemove(), Orphaned());
  }

  lemma OrphanedIsBroken()
    ensures !Healthy(Leaves(), Orphaned())
  {
    SweptForkIsBroken(Orphaned());
  }

  // ── an old object pushed again after the listing ─────────────────────

  ghost function Forgotten(): seq<Action> {
    [Create("src0"), WriteLoose("src0", {"obj0"}, {}), Tick(100), RunStart(0, "src0", 50, {"src0"}), RunListOne(0, "obj0"), RunListDone(0),
     WriteLoose("src0", {"obj0"}, {"obj0"}), Stage(0, "src0", "obj0", None)]
  }

  ghost function CollectThenAdvance(): seq<Action> {
    [RunScanBegin(0, "src0"), RunDelete(0, "obj0"), Advance(0, "main")]
  }

  ghost function Unreferenced(loose: map<Oid, int>, uploads: map<UploadId, Upload>, listed: map<Oid, int>, closed: bool,
                              toRead: map<RepoId, set<RefName>>): State {
    Lone(NO_REFS, loose, uploads, map[], Sweeping({"src0"}, NO_OBJECTS, listed, closed, toRead))
  }

  lemma StartedWithoutRefs()
    ensures Leads(Lone(NO_REFS, OBJ, map[], map[], map[]), RunStart(0, "src0", 50, {"src0"}), Unreferenced(OBJ, map[], map[], false, map[]))
  {
    var s := Lone(NO_REFS, OBJ, map[], map[], map[]);
    assert forall m, x :: !RefsReach(Leaves(), s, m, x);
    assert forall x :: !NetworkReaches(Leaves(), s, {"src0"}, x);
    assert NewRun(Leaves(), s, "src0", 50, {"src0"}).live == NO_OBJECTS;
    assert Next(Leaves(), s, RunStart(0, "src0", 50, {"src0"})) == Unreferenced(OBJ, map[], map[], false, map[]);
  }

  lemma LoneListed()
    ensures Leads(Unreferenced(OBJ, map[], map[], false, map[]), RunListOne(0, "obj0"), Unreferenced(OBJ, map[], OBJ, false, map[]))
    ensures Leads(Unreferenced(OBJ, map[], OBJ, false, map[]), RunListDone(0), Unreferenced(OBJ, map[], OBJ, true, map[]))
  {
    hide Leads, Enabled, Benign, Next;
    var none: map<Oid, int> := map[];
    var s, t := Unreferenced(OBJ, map[], none, false, map[]), Unreferenced(OBJ, map[], OBJ, false, map[]);
    var u := Unreferenced(OBJ, map[], OBJ, true, map[]);
    LeadsListOne(s, 0, "obj0");
    LeadsListDone(t, 0);
    assert none["obj0" := 0] == OBJ;
    assert s.runs[0 := t.runs[0]] == t.runs && t.runs[0 := u.runs[0]] == u.runs;
  }

  const FRESH: map<Oid, int> := map["obj0" := 100]

  lemma WrittenAgain()
    ensures Leads(Unreferenced(OBJ, map[], OBJ, true, map[]), WriteLoose("src0", {"obj0"}, {"obj0"}),
                  Unreferenced(FRESH, map[], OBJ, true, map[]))
  {
    hide Leads, Enabled, Benign, Next;
    var s := Unreferenced(OBJ, map[], OBJ, true, map[]);
    LeadsWrite(s, "src0", {"obj0"}, {"obj0"});
    assert Stamped(OBJ, {"obj0"}, {"obj0"}, 100) == FRESH;
    assert s.loose["src0" := FRESH] == Unreferenced(FRESH, map[], OBJ, true, map[]).loose;
  }

  lemma ForgottenListed()
    ensures Path(EMPTY, Forgotten(), Unreferenced(FRESH, map[0 := Pushing()], OBJ, true, map[]))
  {
    hide Leads, Path, Lone, Unreferenced, Early;
    Created();
    Written();
    Aged(NO_REFS);
    StartedWithoutRefs();
    LoneListed();
    WrittenAgain();
    StagedAgain();
    Walk([EMPTY, Early(map[], NO_REFS, map[]), Early(OBJ, NO_REFS, map[]), Lone(NO_REFS, OBJ, map[], map[], map[]),
          Unreferenced(OBJ, map[], map[], false, map[]), Unreferenced(OBJ, map[], OBJ, false, map[]),
          Unreferenced(OBJ, map[], OBJ, true, map[]), Unreferenced(FRESH, map[], OBJ, true, map[]),
          Unreferenced(FRESH, map[0 := Pushing()], OBJ, true, map[])], Forgotten());
  }

  lemma StagedAgain()
    ensures Leads(Unreferenced(FRESH, map[], OBJ, true, map[]), Stage(0, "src0", "obj0", None),
                  Unreferenced(FRESH, map[0 := Pushing()], OBJ, true, map[]))
  {
  }

  lemma SeenTooLate()
    ensures var s := Unreferenced(FRESH, map[0 := Pushing()], OBJ, true, map[]);
            var a := See(0, "obj0");
            && Enabled(Leaves(), s, a) && !Benign(Leaves(), s, a)
            && Next(Leaves(), s, a) == Unreferenced(FRESH, map[0 := Pushed()], OBJ, true, map[])
  {
    var s := Unreferenced(FRESH, map[0 := Pushing()], OBJ, true, map[]);
    ChainSelf(s.src, "src0");
    assert StoredAt(s, "src0", "obj0") && Resolvable(s, "src0", "obj0");
    assert s.runs[0].repo == "src0" && !Young(s, s.runs[0], "obj0");
    assert forall b :: !SafeAt(s, b, "obj0") && !RefsReach(Leaves(), s, b, "obj0");
    assert !SafeCopy(s, "src0", "obj0") && !ChainReaches(Leaves(), s, "src0", "obj0");
    assert Pushing().(carried := {} + {"obj0"}) == Pushed();
  }

  lemma LoneCollected()
    ensures Own(Unreferenced(FRESH, map[0 := Pushed()], OBJ, true, map[]), RunScanBegin(0, "src0"),
                  Unreferenced(FRESH, map[0 := Pushed()], OBJ, true, map["src0" := {}]))
    ensures Own(Unreferenced(FRESH, map[0 := Pushed()], OBJ, true, map["src0" := {}]), RunDelete(0, "obj0"),
                  Unreferenced(map[], map[0 := Pushed()], map[], true, map["src0" := {}]))
  {
    hide Leads, Enabled, Benign, Next;
    var s, t := Unreferenced(FRESH, map[0 := Pushed()], OBJ, true, map[]), Unreferenced(FRESH, map[0 := Pushed()], OBJ, true, map["src0" := {}]);
    var u := Unreferenced(map[], map[0 := Pushed()], map[], true, map["src0" := {}]);
    LeadsScanBegin(s, 0, "src0");
    LeadsDelete(t, 0, "obj0");
    assert NO_REFS.Keys == {};
    assert OBJ - {"obj0"} == map[] && FRESH - {"obj0"} == map[];
    assert s.runs[0].toRead["src0" := {}] == t.runs[0].toRead;
    assert s.runs[0 := t.runs[0]] == t.runs && t.runs[0 := u.runs[0]] == u.runs && t.loose["src0" := map[]] == u.loose;
  }

  ghost function Hollow(): State {
    Unreferenced(map[], map[0 := Pushed()], map[], true, map["src0" := {}]).(refs := map["src0" := MAIN])
  }

  lemma AdvancedIntoAHole()
    ensures Leads(Unreferenced(map[], map[0 := Pushed()], map[], true, map["src0" := {}]), Advance(0, "main"), Hollow())
    ensures !Healthy(Leaves(), Hollow())
  {
    PushIsChecked();
    hide Checked;
    assert NO_REFS["main" := "obj0"] == MAIN;
    ReachesSelf(Leaves(), "obj0");
    assert RefReaches(Leaves(), MAIN, "main", "obj0") && RefsReach(Leaves(), Hollow(), "src0", "obj0");
    assert forall a :: !StoredAt(Hollow(), a, "obj0");
    assert !Resolvable(Hollow(), "src0", "obj0");
  }

  /**
   An old object that no ref reaches is pushed again after the listing. It is young on disk and passes the
   connectivity gate, yet the run takes it, and the push moves `main` into the hole.
   */
  lemma PushAfterListingBreaksTheRepo()
    ensures BreaksWith(Leaves(), Forgotten(), See(0, "obj0"), CollectThenAdvance())
  {
    hide Leads, OwnStep, Path, Unreferenced, Hollow, BreaksWith, Healthy, Benign, Enabled, Next, Possible, After;
    ForgottenListed();
    SeenTooLate();
    LoneCollected();
    AdvancedIntoAHole();
    var up := map[0 := Pushed()];
    Walk([Unreferenced(FRESH, up, OBJ, true, map[]), Unreferenced(FRESH, up, OBJ, true, map["src0" := {}]),
          Unreferenced(map[], up, map[], true, map["src0" := {}]), Hollow()], CollectThenAdvance());
    Breaks(Forgotten(), Unreferenced(FRESH, map[0 := Pushing()], OBJ, true, map[]), See(0, "obj0"), Unreferenced(FRESH, up, OBJ, true, map[]),
           CollectThenAdvance(), Hollow());
  }

  // ── where the three collections are decided ──────────────────────────

  /**
   After `before` everything relied on has a firm copy; after `culprit` something has none; and run 0,
   going on to its end by itself, then loses it.
   */
  ghost predicate DecidedBy(before: seq<Action>, culprit: Action, finish: seq<Action>) {
    && Possible(Leaves(), EMPTY, before, false)
    && var s := After(Leaves(), EMPTY, before);
    && AllFirm(Leaves(), s) && Enabled(Leaves(), s, culprit)
    && var s' := Next(Leaves(), s, culprit);
    && !AllFirm(Leaves(), s') && 0 in s'.runs && Undisturbed(Leaves(), s', 0, finish)
    && Possible(Leaves(), s', finish, false)
    && var t := After(Leaves(), s', finish);
    && 0 in t.runs && Exhausted(t.runs[0]) && !Sound(Leaves(), t)
  }

  lemma Decided(before: seq<Action>, s: State, culprit: Action, s': State, finish: seq<Action>, t: State)
    requires Path(EMPTY, before, s) && Path(s', finish, t)
    requires Enabled(Leaves(), s, culprit) && Next(Leaves(), s, culprit) == s'
    requires s'.runs.Keys == {0} && Undisturbed(Leaves(), s', 0, finish)
    requires 0 in t.runs && Exhausted(t.runs[0]) && !Sound(Leaves(), t)
    ensures DecidedBy(before, culprit, finish)
  {
    hide AllFirm, Sound, Exhausted, Undisturbed, Enabled, Next, Healthy, RefsFirm, WellFormed, LiveKept, DeletesSafe;
    NothingReliedOnIsLost(Leaves(), before);
    FinishingIsSafeIff(Leaves(), s', 0, finish);
  }

  lemma {:induction false} OwnWalk(states: seq<State>, acts: seq<Action>)
    requires |states| == |acts| + 1 && 0 in states[0].runs
    requires forall i :: 0 <= i < |acts| ==> Own(states[i], acts[i], states[i + 1])
    ensures Undisturbed(Leaves(), states[0], 0, acts) && Path(states[0], acts, states[|acts|])
    decreases |acts|
  {
    if acts != [] {
      hide Enabled, Benign, Next, OwnStep;
      assert Own(states[0], acts[0], states[1]);
      OwnWalk(states[1..], acts[1..]);
    }
  }

  lemma LostAt(s: State, r: RepoId)
    requires Relied(Leaves(), s, r, "obj0") && forall a :: !StoredAt(s, a, "obj0")
    ensures !Sound(Leaves(), s)
  {
    assert !Resolvable(s, r, "obj0");
  }

  lemma NothingDoomed(network: set<RepoId>, live: iset<Oid>, toRead: map<RepoId, set<RefName>>)
    requires forall m :: m in network ==> m in toRead && toRead[m] == {}
    ensures Exhausted(Sweeping(network, live, map[], true, toRead)[0])
  {
  }

  lemma RefDeleteDecides()
    ensures DecidedBy(Seed() + ForkInRun(), DropRef("src0", "main"), Collect())
  {
    hide *;
    Seeded();
    ForkedInRun();
    MainDroppedInRun();
    CollectedAlone();
    var run := Sweeping({"src0"}, iset{"obj0"}, map[], false, map[]);
    PathsJoin(EMPTY, Seed(), Lone(MAIN, OBJ, map[], map[], map[]), ForkInRun(), Forked(MAIN, OBJ, MAIN, map[], map[], run));
    Decided(Seed() + ForkInRun(), Forked(MAIN, OBJ, MAIN, map[], map[], run), DropRef("src0", "main"), Emptied(OBJ, MAIN, map[], run),
            Collect(), Emptied(map[], MAIN, map[], Sweeping({"src0"}, iset{"obj0"}, map[], true, map["src0" := {}])));
  }

  lemma CollectedAlone()
    ensures var s := Emptied(OBJ, MAIN, map[], Sweeping({"src0"}, iset{"obj0"}, map[], false, map[]));
            var t := Emptied(map[], MAIN, map[], Sweeping({"src0"}, iset{"obj0"}, map[], true, map["src0" := {}]));
            && s.runs.Keys == {0} && Undisturbed(Leaves(), s, 0, Collect()) && Path(s, Collect(), t)
            && 0 in t.runs && Exhausted(t.runs[0]) && !Sound(Leaves(), t)
  {
    hide Leads, OwnStep, Path, Sound, Exhausted, Undisturbed;
    var network, live, scanned := {"src0"}, iset{"obj0"}, map["src0" := {}];
    ListedOne(MAIN, map[], network, live);
    ListClosed(MAIN, map[], network, live);
    SourceScanned(MAIN, map[], network, live);
    ObjectTaken(MAIN, map[], network, live, scanned);
    NothingDoomed(network, live, scanned);
    MainIsLost(network, live, scanned);
    OwnWalk([Emptied(OBJ, MAIN, map[], Sweeping(network, live, map[], false, map[])),
             Emptied(OBJ, MAIN, map[], Sweeping(network, live, OBJ, false, map[])),
             Emptied(OBJ, MAIN, map[], Sweeping(network, live, OBJ, true, map[])),
             Emptied(OBJ, MAIN, map[], Sweeping(network, live, OBJ, true, scanned)),
             Emptied(map[], MAIN, map[], Sweeping(network, live, map[], true, scanned))], Collect());
  }

  lemma MainIsLost(network: set<RepoId>, live: iset<Oid>, scanned: map<RepoId, set<RefName>>)
    ensures !Sound(Leaves(), Emptied(map[], MAIN, map[], Sweeping(network, live, map[], true, scanned)))
  {
    var t := Emptied(map[], MAIN, map[], Sweeping(network, live, map[], true, scanned));
    ReachesSelf(Leaves(), "obj0");
    assert RefReaches(Leaves(), t.refs["fork"], "main", "obj0");
    assert RefsReach(Leaves(), t, "fork", "obj0") && Relied(Leaves(), t, "fork", "obj0");
    LostAt(t, "fork");
  }

  /** The collection of both repos, without the write that follows. */
  ghost function CollectBoth(): seq<Action> {
    [RunListOne(0, "obj0"), RunListDone(0), RunScanBegin(0, "src0"), RunScanBegin(0, "fork"), RunDelete(0, "obj0")]
  }

  lemma StartDecides()
    ensures DecidedBy(Seed() + ReadThenDrop(), RunStart(0, "src0", 50, {"src0", "fork"}), CollectBoth())
  {
    hide *;
    Seeded();
    RefsReadAndDropped();
    StartedBlind();
    CollectedBothAlone();
    var s := Emptied(OBJ, NO_REFS, map["fork" := MAIN], map[]);
    PathsJoin(EMPTY, Seed(), Lone(MAIN, OBJ, map[], map[], map[]), ReadThenDrop(), s);
    Decided(Seed() + ReadThenDrop(), s, RunStart(0, "src0", 50, {"src0", "fork"}),
            Emptied(OBJ, NO_REFS, map["fork" := MAIN], Sweeping({"src0", "fork"}, NO_OBJECTS, map[], false, map[])), CollectBoth(),
            Emptied(map[], NO_REFS, map["fork" := MAIN],
                    Sweeping({"src0", "fork"}, NO_OBJECTS, map[], true, map["src0" := {}, "fork" := {}])));
  }

  lemma CollectedBothAlone()
    ensures var s := Emptied(OBJ, NO_REFS, map["fork" := MAIN], Sweeping({"src0", "fork"}, NO_OBJECTS, map[], false, map[]));
            var t := Emptied(map[], NO_REFS, map["fork" := MAIN],
                             Sweeping({"src0", "fork"}, NO_OBJECTS, map[], true, map["src0" := {}, "fork" := {}]));
            && s.runs.Keys == {0} && Undisturbed(Leaves(), s, 0, CollectBoth()) && Path(s, CollectBoth(), t)
            && 0 in t.runs && Exhausted(t.runs[0]) && !Sound(Leaves(), t)
  {
    hide Leads, OwnStep, Path, Sound, Exhausted, Undisturbed;
    var network, snaps, live := {"src0", "fork"}, map["fork" := MAIN], NO_OBJECTS;
    var some, all := map["src0" := {}], map["src0" := {}, "fork" := {}];
    ListedOne(NO_REFS, snaps, network, live);
    ListClosed(NO_REFS, snaps, network, live);
    SourceScanned(NO_REFS, snaps, network, live);
    ForkScanned(network);
    ObjectTaken(NO_REFS, snaps, network, live, all);
    NothingDoomed(network, live, all);
    SnapshotIsLost(network, live, all);
    OwnWalk([Emptied(OBJ, NO_REFS, snaps, Sweeping(network, live, map[], false, map[])),
             Emptied(OBJ, NO_REFS, snaps, Sweeping(network, live, OBJ, false, map[])),
             Emptied(OBJ, NO_REFS, snaps, Sweeping(network, live, OBJ, true, map[])),
             Emptied(OBJ, NO_REFS, snaps, Sweeping(network, live, OBJ, true, some)),
             Emptied(OBJ, NO_REFS, snaps, Sweeping(network, live, OBJ, true, all)),
             Emptied(map[], NO_REFS, snaps, Sweeping(network, live, map[], true, all))], CollectBoth());
  }

  lemma SnapshotIsLost(network: set<RepoId>, live: iset<Oid>, scanned: map<RepoId, set<RefName>>)
    ensures !Sound(Leaves(), Emptied(map[], NO_REFS, map["fork" := MAIN], Sweeping(network, live, map[], true, scanned)))
  {
    var t := Emptied(map[], NO_REFS, map["fork" := MAIN], Sweeping(network, live, map[], true, scanned));
    ReachesSelf(Leaves(), "obj0");
    assert RefReaches(Leaves(), Snapshot(t, "fork"), "main", "obj0") && Relied(Leaves(), t, "fork", "obj0");
    LostAt(t, "fork");
  }

  ghost function CollectLone(): seq<Action> {
    [RunScanBegin(0, "src0"), RunDelete(0, "obj0")]
  }

  lemma SeeingDecides()
    ensures DecidedBy(Forgotten(), See(0, "obj0"), CollectLone())
  {
    hide *;
    ForgottenListed();
    SeenTooLate();
    CollectedLoneAlone();
    var up := map[0 := Pushed()];
    Decided(Forgotten(), Unreferenced(FRESH, map[0 := Pushing()], OBJ, true, map[]), See(0, "obj0"),
            Unreferenced(FRESH, up, OBJ, true, map[]), CollectLone(), Unreferenced(map[], up, map[], true, map["src0" := {}]));
  }

  lemma CollectedLoneAlone()
    ensures var s := Unreferenced(FRESH, map[0 := Pushed()], OBJ, true, map[]);
            var t := Unreferenced(map[], map[0 := Pushed()], map[], true, map["src0" := {}]);
            && s.runs.Keys == {0} && Undisturbed(Leaves(), s, 0, CollectLone()) && Path(s, CollectLone(), t)
            && 0 in t.runs && Exhausted(t.runs[0]) && !Sound(Leaves(), t)
  {
    hide Leads, OwnStep, Path, Sound, Exhausted, Undisturbed;
    var up := map[0 := Pushed()];
    LoneCollected();
    NothingDoomed({"src0"}, NO_OBJECTS, map["src0" := {}]);
    PushedIsLost();
    OwnWalk([Unreferenced(FRESH, up, OBJ, true, map[]), Unreferenced(FRESH, up, OBJ, true, map["src0" := {}]),
             Unreferenced(map[], up, map[], true, map["src0" := {}])], CollectLone());
  }

  lemma PushedIsLost()
    ensures !Sound(Leaves(), Unreferenced(map[], map[0 := Pushed()], map[], true, map["src0" := {}]))
  {
    var t := Unreferenced(map[], map[0 := Pushed()], map[], true, map["src0" := {}]);
    assert t.uploads[0] == Pushed() && Carried(t, "src0", "obj0") && Relied(Leaves(), t, "src0", "obj0");
    LostAt(t, "src0");
  }

  /**
   The condition of `FinishingIsSafeIff` tells all three collections that end with a hole from safe ones,
   at the very step that is not benign: it holds before that step and fails after it. In the last two no
   ref exists at that moment; what is lost is what a fork has read, or what a push has seen.
   */
  lemma FirmnessDecidesTheRaces()
    ensures DecidedBy(Seed() + ForkInRun(), DropRef("src0", "main"), Collect())
    ensures DecidedBy(Seed() + ReadThenDrop(), RunStart(0, "src0", 50, {"src0", "fork"}), CollectBoth())
    ensures DecidedBy(Forgotten(), See(0, "obj0"), CollectLone())
  {
    hide *;
    RefDeleteDecides();
    StartDecides();
    SeeingDecides();
  }
}
