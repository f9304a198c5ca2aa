/**
 What the restriction on the environment asks of the writers, and the exact condition under which a run
 that is no longer disturbed leaves a hole.
 */
module CollectorLimits {
  import opened Base
  import opened Reachability
  import opened ForkRelation
  import opened Collector
  import opened CollectorSafety

  // ── what the restriction asks of the writers ─────────────────────────

  /** Without a run in flight the restriction asks nothing of pushes, commits, ref deletions and fork refs. */
  lemma NoRunsNoRestriction(links: Links, s: State, a: Action)
    requires WellFormed(s) && s.runs == map[] && Enabled(links, s, a)
    requires !a.Create? && !a.ForkLink? && !a.DeleteStart? && !a.RunStart?
    ensures Benign(links, s, a)
  {
    hide Reaches;
    if a.See? {
      var repo := s.uploads[a.u].repo;
      if Resolvable(s, repo, a.oid) {
        var b :| InChain(s.src, repo, b) && StoredAt(s, b, a.oid);
        assert SafeAt(s, b, a.oid);
      } else {
        ChainSelf(s.src, repo);
        assert ChainReaches(links, s, repo, a.oid);
      }
    }
  }

  /**
   The network a run returns need not be exact. If it is, the restriction asks nothing about refs: it
   holds as soon as nothing is being uploaded or copied.
   */
  lemma ExactNetworkCoversRefs(links: Links, s: State, k: RunId, repo: RepoId, cutoff: int, network: set<RepoId>)
    requires WellFormed(s) && s.uploads == map[] && s.snaps == map[]
    requires Enabled(links, s, RunStart(k, repo, cutoff, network))
    requires forall x :: x in network <==> Connected(s.src, repo, x)
    ensures Benign(links, s, RunStart(k, repo, cutoff, network))
  {
    hide Connected, Reaches, SafeCopy;
    var s' := Next(links, s, RunStart(k, repo, cutoff, network));
    forall r, x | Relied(links, s, r, x) && InChain(s.src, r, repo) ensures Outlasts(s', k, x) {
      var n: nat :| Uses(s.src, r, repo, n);
      ChainIsConnected(s.src, r, repo, n);
      assert r in network && RefsReach(links, s, r, x);
    }
  }

  /** Some ref of the upload's repo holds the value that its ref update expects. */
  ghost predicate BaseHeld(s: State, up: Upload) {
    up.base.Some? && up.repo in s.refs && up.base.value in s.refs[up.repo].Values
  }

  /**
   The connectivity walk takes time: it sees one object after the other, and leaves out what the replaced
   value reaches. In every benign history, from the end of the walk to the ref update, whatever was
   collected in between, the whole closure of the tip can be read as long as the replaced value is still
   held; and what the walk saw itself can be read in any case.
   */
  lemma GatedTipIsReadable(links: Links, acts: seq<Action>, u: UploadId, x: Oid)
    requires Possible(links, EMPTY, acts, true) && Possible(links, EMPTY, acts, false)
    requires var s := After(links, EMPTY, acts);
             u in s.uploads && s.uploads[u].repo in s.src && Checked(links, s.uploads[u]) && Reaches(links, s.uploads[u].tip, x)
    ensures var s := After(links, EMPTY, acts);
            var up := s.uploads[u];
            Resolvable(s, up.repo, x) || (x !in up.carried && up.base.Some? && Reaches(links, up.base.value, x) && !BaseHeld(s, up))
    ensures var s := After(links, EMPTY, acts);
            forall name :: Enabled(links, s, Advance(u, name)) ==> Resolvable(s, s.uploads[u].repo, x)
  {
    hide Resolvable, Reaches, Possible, After, Inv;
    NothingReliedOnIsLost(links, acts);
    var s := After(links, EMPTY, acts);
    var up := s.uploads[u];
    if x in up.carried {
      assert Carried(s, up.repo, x);
      assert Relied(links, s, up.repo, x);
    } else if BaseHeld(s, up) {
      var n :| n in s.refs[up.repo] && s.refs[up.repo][n] == up.base.value;
      assert RefReaches(links, s.refs[up.repo], n, x);
      assert Relied(links, s, up.repo, x);
    }
    forall name | Enabled(links, s, Advance(u, name)) ensures x in up.carried || BaseHeld(s, up) {
      assert up.base.Some? ==> s.refs[up.repo][name] in s.refs[up.repo].Values;
    }
  }

  /**
   The guard reads the time stamp of the listing: a doomed object that a push writes again between the
   listing and the delete is young on disk and is removed all the same.
   */
  lemma RewriteAfterListingDoesNotProtect(links: Links, s: State, k: RunId, o: Oid)
    requires Enabled(links, s, RunDelete(k, o)) && s.runs[k].repo in s.loose && o in s.loose[s.runs[k].repo]
    requires s.runs[k].cutoff < s.now
    ensures var repo := s.runs[k].repo;
            var touch := WriteLoose(repo, {o}, {o});
            && Enabled(links, s, touch)
            && var s1 := Next(links, s, touch);
            && s1.loose[repo][o] > s.runs[k].cutoff
            && Enabled(links, s1, RunDelete(k, o))
            && o !in Next(links, s1, RunDelete(k, o)).loose[repo]
  {
    hide ScanOver;
  }

  // ── exactly when a run may go on undisturbed ─────────────────────────

  /** A step of run `k`; the listing ends only when it has shown every loose object. */
  ghost predicate OwnStep(s: State, k: RunId, a: Action)
    requires k in s.runs
  {
    match a
    case RunListOne(j, _) => j == k
    case RunListDone(j) => j == k && (s.runs[k].repo in s.loose ==> s.loose[s.runs[k].repo].Keys <= s.runs[k].listed.Keys)
    case RunScanBegin(j, _) => j == k
    case RunRead(j, _, _) => j == k
    case RunDelete(j, _) => j == k
    case _ => false
  }

  ghost predicate Undisturbed(links: Links, s: State, k: RunId, acts: seq<Action>)
    requires k in s.runs
    decreases |acts|
  {
    acts == [] ||
    (OwnStep(s, k, acts[0]) && Enabled(links, s, acts[0]) && Undisturbed(links, Next(links, s, acts[0]), k, acts[1..]))
  }

  /** The run has listed, scanned and deleted all it will. */
  ghost predicate Exhausted(r: Run) {
    r.closed && ScanOver(r) && forall o :: !Doomed(r, o)
  }

  lemma OwnStepFirmAt(links: Links, s: State, k: RunId, a: Action, b: RepoId, x: Oid)
    requires k in s.runs && OwnStep(s, k, a) && Enabled(links, s, a)
    ensures FirmAt(links, s, b, x) <==> FirmAt(links, Next(links, s, a), b, x)
  {
    hide Spared, Promised;
    var s' := Next(links, s, a);
    match a
    case RunListOne(_, o) =>
      ListOneSpared(links, s, k, o, x);
      OneRunFirmAt(links, s, s', k, b, x);
    case RunListDone(_) =>
      ListDoneSpared(links, s, k, x);
      OneRunFirmAt(links, s, s', k, b, x);
    case RunScanBegin(_, m) =>
      ScanBeginPromised(links, s, k, m, x);
      SparedByPromise(links, s, s', k, x);
      OneRunFirmAt(links, s, s', k, b, x);
    case RunRead(_, m, n) =>
      ReadPromised(links, s, k, m, n, x);
      SparedByPromise(links, s, s', k, x);
      OneRunFirmAt(links, s, s', k, b, x);
    case RunDelete(_, o) =>
      DoomedIsNotSpared(links, s, s.runs[k], o);
      RemovedFirmAt(links, s, k, o, b, x);
  }

  lemma SparedByPromise(links: Links, s: State, s': State, k: RunId, x: Oid)
    requires OneRun(s, s', k) && s'.runs[k] == s.runs[k].(toRead := s'.runs[k].toRead, reach := s'.runs[k].reach)
    requires Promised(links, s, s.runs[k], x) <==> Promised(links, s', s'.runs[k], x)
    ensures Spared(links, s, s.runs[k], x) <==> Spared(links, s', s'.runs[k], x)
  {
    hide Promised;
  }

  lemma OwnStepFrame(links: Links, s: State, k: RunId, a: Action)
    requires k in s.runs && OwnStep(s, k, a) && Enabled(links, s, a)
    ensures var s' := Next(links, s, a);
            && s'.src == s.src && s'.refs == s.refs && s'.uploads == s.uploads && s'.snaps == s.snaps
            && s'.runs.Keys == s.runs.Keys && s'.runs[k].repo == s.runs[k].repo && s'.runs[k].cutoff == s.runs[k].cutoff
            && s'.runs[k].network == s.runs[k].network
  {
  }

  lemma OwnStepKeepsFirmness(links: Links, s: State, k: RunId, a: Action)
    requires k in s.runs && OwnStep(s, k, a) && Enabled(links, s, a)
    ensures RefsFirm(links, s) <==> RefsFirm(links, Next(links, s, a))
    ensures AllFirm(links, s) <==> AllFirm(links, Next(links, s, a))
  {
    var s' := Next(links, s, a);
    OwnStepFrame(links, s, k, a);
    hide FirmAt, InChain, Enabled, Next, OwnStep, SomeRefReaches;
    forall b, x ensures FirmAt(links, s, b, x) <==> FirmAt(links, s', b, x) {
      OwnStepFirmAt(links, s, k, a, b, x);
    }
    assert forall r, x :: Firm(links, s, r, x) <==> Firm(links, s', r, x);
    assert forall r, x :: RefsReach(links, s, r, x) <==> RefsReach(links, s', r, x);
    assert forall r, x :: Carried(s, r, x) <==> Carried(s', r, x);
    assert forall r, x :: Relied(links, s, r, x) <==> Relied(links, s', r, x);
  }

  lemma ExhaustedTakesNothing(links: Links, s: State, k: RunId, r: RepoId, x: Oid)
    requires s.runs.Keys == {k} && Exhausted(s.runs[k])
    ensures Firm(links, s, r, x) <==> Resolvable(s, r, x)
  {
    hide InChain, ScanOver;
    forall a ensures FirmAt(links, s, a, x) <==> StoredAt(s, a, x) {
      assert Doomed(s.runs[k], x) || Young(s, s.runs[k], x) || x in s.runs[k].reach;
    }
  }

  /**
   Whatever happened before, a run that goes on to its end undisturbed loses nothing that a ref, an upload
   or a fork in the making relies on, if and only if, now, all of it has a copy the run cannot take. And
   it leaves no ref with a hole if and only if that holds of what the refs reach.
   */
  lemma {:induction false} FinishingIsSafeIff(links: Links, s: State, k: RunId, acts: seq<Action>)
    requires s.runs.Keys == {k} && Undisturbed(links, s, k, acts) && Possible(links, s, acts, false)
    requires k in After(links, s, acts).runs && Exhausted(After(links, s, acts).runs[k])
    ensures Sound(links, After(links, s, acts)) <==> AllFirm(links, s)
    ensures Healthy(links, After(links, s, acts)) <==> RefsFirm(links, s)
    decreases |acts|
  {
    if acts == [] {
      hide Firm, Resolvable, RefsReach, Relied;
      forall r, x ensures Firm(links, s, r, x) <==> Resolvable(s, r, x) {
        ExhaustedTakesNothing(links, s, k, r, x);
      }
    } else {
      hide RefsFirm, AllFirm, Healthy, Sound, Exhausted;
      OwnStepFrame(links, s, k, acts[0]);
      OwnStepKeepsFirmness(links, s, k, acts[0]);
      FinishingIsSafeIff(links, Next(links, s, acts[0]), k, acts[1..]);
    }
  }

  // ── exactly what an undisturbed run removes ──────────────────────────

  /** The run has its network and nothing else. */
  ghost predicate Fresh(r: Run) {
    r.listed == map[] && !r.closed && r.toRead == map[] && r.reach == NO_OBJECTS
  }

  /** `x` is loose in the run's repo and will be left there. */
  ghost predicate Stays(links: Links, s: State, k: RunId, x: Oid)
    requires k in s.runs
  {
    s.runs[k].repo in s.loose && x in s.loose[s.runs[k].repo] && Spared(links, s, s.runs[k], x)
  }

  lemma OwnStepStays(links: Links, s: State, k: RunId, a: Action, x: Oid)
    requires k in s.runs && OwnStep(s, k, a) && Enabled(links, s, a)
    ensures k in Next(links, s, a).runs && (Stays(links, s, k, x) <==> Stays(links, Next(links, s, a), k, x))
  {
    hide Spared, Promised;
    var s' := Next(links, s, a);
    match a
    case RunListOne(_, o) => ListOneSpared(links, s, k, o, x);
    case RunListDone(_) => ListDoneSpared(links, s, k, x);
    case RunScanBegin(_, m) =>
      ScanBeginPromised(links, s, k, m, x);
      SparedByPromise(links, s, s', k, x);
    case RunRead(_, m, n) =>
      ReadPromised(links, s, k, m, n, x);
      SparedByPromise(links, s, s', k, x);
    case RunDelete(_, o) =>
      DoomedIsNotSpared(links, s, s.runs[k], o);
      if x != o {
        RemovedSpared(links, s, k, o, k, x);
      }
  }

  lemma {:induction false} RunStays(links: Links, s: State, k: RunId, acts: seq<Action>, x: Oid)
    requires k in s.runs && Undisturbed(links, s, k, acts) && Possible(links, s, acts, false)
    ensures k in After(links, s, acts).runs && (Stays(links, s, k, x) <==> Stays(links, After(links, s, acts), k, x))
    decreases |acts|
  {
    if acts != [] {
      hide Stays, OwnStep;
      OwnStepStays(links, s, k, acts[0], x);
      RunStays(links, Next(links, s, acts[0]), k, acts[1..], x);
    }
  }

  /** What a run does not change along the way, and that it scans only members that exist. */
  lemma {:induction false} RunFrame(links: Links, s: State, k: RunId, acts: seq<Action>)
    requires k in s.runs && Undisturbed(links, s, k, acts) && Possible(links, s, acts, false)
    requires s.runs[k].toRead.Keys <= s.refs.Keys
    ensures var s' := After(links, s, acts);
            && k in s'.runs && s'.refs == s.refs && s'.loose.Keys == s.loose.Keys && s'.runs[k].repo == s.runs[k].repo
            && s'.runs[k].cutoff == s.runs[k].cutoff && s'.runs[k].network == s.runs[k].network
            && s'.runs[k].toRead.Keys <= s.refs.Keys
    decreases |acts|
  {
    if acts != [] {
      OwnStepFrame(links, s, k, acts[0]);
      ScansWhatExists(links, s, k, acts[0]);
      hide OwnStep, Enabled, Next;
      RunFrame(links, Next(links, s, acts[0]), k, acts[1..]);
    }
  }

  lemma ScansWhatExists(links: Links, s: State, k: RunId, a: Action)
    requires k in s.runs && OwnStep(s, k, a) && Enabled(links, s, a) && s.runs[k].toRead.Keys <= s.refs.Keys
    ensures var s' := Next(links, s, a);
            k in s'.runs && s'.runs[k].toRead.Keys <= s'.refs.Keys && s'.loose.Keys == s.loose.Keys
  {
    hide ScanOver, Doomed, Closure;
  }

  /** At its start a run will spare what is young and what the network reaches. */
  lemma FreshSpares(links: Links, s: State, r: Run, x: Oid)
    requires Fresh(r) && r.network <= s.refs.Keys && r.repo in s.loose && x in s.loose[r.repo]
    ensures Spared(links, s, r, x) <==> s.loose[r.repo][x] > r.cutoff || NetworkReaches(links, s, r.network, x)
  {
    hide Reaches;
    if NetworkReaches(links, s, r.network, x) {
      var m :| m in r.network && RefsReach(links, s, m, x);
      var n :| RefReaches(links, s.refs[m], n, x);
      assert CoveredBy(links, s, r, m, n, x);
    }
    if Covered(links, s, r, x) {
      var m, n :| CoveredBy(links, s, r, m, n, x);
      assert RefReaches(links, s.refs[m], n, x);
      assert RefsReach(links, s, m, x);
    }
  }

  lemma ExhaustedSpares(links: Links, s: State, r: Run, x: Oid)
    requires Exhausted(r)
    ensures Spared(links, s, r, x)
  {
    hide ScanOver;
    assert Doomed(r, x) || Young(s, r, x) || x in r.reach;
  }

  /**
   A run that is not disturbed from its beginning to its end leaves exactly the loose objects that are
   younger than the cutoff or reached by a ref of its network.
   */
  lemma UndisturbedRunLeaves(links: Links, s: State, k: RunId, acts: seq<Action>, x: Oid)
    requires k in s.runs && Fresh(s.runs[k]) && s.runs[k].repo in s.loose
    requires Undisturbed(links, s, k, acts) && Possible(links, s, acts, false)
    requires k in After(links, s, acts).runs && Exhausted(After(links, s, acts).runs[k])
    ensures var r := s.runs[k];
            && r.repo in After(links, s, acts).loose
            && (x in After(links, s, acts).loose[r.repo] <==>
                x in s.loose[r.repo] && (s.loose[r.repo][x] > r.cutoff || NetworkReaches(links, s, r.network, x)))
  {
    hide Undisturbed, Possible, After, Spared, NetworkReaches;
    var s' := After(links, s, acts);
    RunFrame(links, s, k, acts);
    RunStays(links, s, k, acts, x);
    ExhaustedSpares(links, s', s'.runs[k], x);
    if x in s.loose[s.runs[k].repo] {
      FreshSpares(links, s, s.runs[k], x);
    }
  }

  // ── what no run can take ─────────────────────────────────────────────

  /** Objects written into a pack are out of reach of every run, now and later, whatever refs and listings say. */
  lemma PackedIsFirm(links: Links, s: State, repo: RepoId, objs: set<Oid>, x: Oid)
    requires repo in s.loose && repo in s.packed && x in objs
    ensures Enabled(links, s, WritePack(repo, objs))
    ensures var s' := Next(links, s, WritePack(repo, objs));
            FirmAt(links, s', repo, x) && SafeCopy(s', repo, x) && Firm(links, s', repo, x)
  {
    var s' := Next(links, s, WritePack(repo, objs));
    ChainSelf(s.src, repo);
    assert FirmAt(links, s', repo, x) && SafeAt(s', repo, x);
  }

  /** When the last run ends, nothing is restricted any more and every stored copy is firm. */
  lemma LastRunEnds(links: Links, s: State, k: RunId, a: RepoId, x: Oid)
    requires s.runs.Keys == {k}
    ensures Enabled(links, s, RunEnd(k)) && Next(links, s, RunEnd(k)).runs == map[]
    ensures FirmAt(links, Next(links, s, RunEnd(k)), a, x) <==> StoredAt(s, a, x)
  {
    var s' := Next(links, s, RunEnd(k));
    assert s'.runs == map[];
    hide Enabled, Spared;
  }

  /** What is given up is forgotten: an upload, the refs a fork has read, a delete request. */
  lemma GivenUpIsForgotten(links: Links, s: State, u: UploadId, id: RepoId, d: DeleteId)
    ensures u in s.uploads ==> Next(links, s, Drop(u)).uploads == s.uploads - {u}
    ensures id in s.snaps ==> Snapshot(Next(links, s, SnapshotAbandon(id)), id) == map[]
    ensures d in s.deletes ==> d !in Next(links, s, DeleteEnd(d)).deletes
  {
  }
}
