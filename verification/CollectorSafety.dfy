/** Every benign step of the fork network keeps every ref's closure readable, whatever runs are in flight. */
module CollectorSafety {
  import opened Base
  import opened Reachability
  import opened ForkRelation
  import opened Cascade
  import opened Collector

  // ── what any step other than a run's own has to keep ─────────────────

  /** What the runs in flight were still to report, they still will. */
  ghost predicate CoverKept(links: Links, s: State, s': State) {
    && s'.runs == s.runs
    && forall k, m, n, x :: k in s.runs && CoveredBy(links, s, s.runs[k], m, n, x) ==> CoveredBy(links, s', s.runs[k], m, n, x)
  }

  /** The store of `a` only grows and its stamps only rise. */
  ghost predicate StoreKept(s: State, s': State, a: RepoId) {
    a in s.loose && a in s.packed ==>
      && a in s'.loose && a in s'.packed && s.packed[a] <= s'.packed[a]
      && forall x :: x in s.loose[a] ==> x in s'.loose[a] && s'.loose[a][x] >= s.loose[a][x]
  }

  lemma PromisesKept(links: Links, s: State, s': State, k: RunId, x: Oid)
    requires CoverKept(links, s, s') && k in s.runs && Promised(links, s, s.runs[k], x)
    ensures Promised(links, s', s.runs[k], x)
  {
    hide CoveredBy;
    if x !in s.runs[k].reach {
      var m, n :| CoveredBy(links, s, s.runs[k], m, n, x);
      assert CoveredBy(links, s', s.runs[k], m, n, x);
    }
  }

  lemma FirmAtKept(links: Links, s: State, s': State, a: RepoId, x: Oid)
    requires CoverKept(links, s, s') && StoreKept(s, s', a) && FirmAt(links, s, a, x)
    ensures FirmAt(links, s', a, x)
  {
    hide Promised;
    if x !in s.packed[a] {
      forall k | k in s.runs && s.runs[k].repo == a ensures Spared(links, s', s.runs[k], x) {
        if !Young(s, s.runs[k], x) {
          PromisesKept(links, s, s', k, x);
        }
      }
    }
  }

  lemma FirmKept(links: Links, s: State, s': State, r: RepoId, x: Oid)
    requires CoverKept(links, s, s') && Firm(links, s, r, x)
    requires forall a :: InChain(s.src, r, a) ==> InChain(s'.src, r, a) && StoreKept(s, s', a)
    ensures Firm(links, s', r, x)
  {
    hide FirmAt, InChain, StoreKept, CoverKept;
    var a :| InChain(s.src, r, a) && FirmAt(links, s, a, x);
    FirmAtKept(links, s, s', a, x);
  }

  lemma LivesKept(links: Links, s: State, s': State)
    requires CoverKept(links, s, s') && LiveKept(links, s)
    ensures LiveKept(links, s')
  {
    hide Promised;
    forall k, x | k in s'.runs && x in s'.runs[k].live ensures Promised(links, s', s'.runs[k], x) {
      PromisesKept(links, s, s', k, x);
    }
  }

  // ── steps that leave repos and refs alone ────────────────────────────

  ghost predicate OnlyGrows(s: State, s': State) {
    s'.src == s.src && s'.refs == s.refs && s'.runs == s.runs && forall a :: StoreKept(s, s', a)
  }

  lemma GrowthKeepsInv(links: Links, s: State, s': State)
    requires Inv(links, s) && WellFormed(s') && OnlyGrows(s, s') && DeletesSafe(s')
    requires forall r, x :: Relied(links, s', r, x) ==> Relied(links, s, r, x) || Firm(links, s, r, x)
    ensures Inv(links, s')
  {
    hide Firm, WellFormed, LiveKept, DeletesSafe, Relied, StoreKept, InChain;
    SameRefsCover(links, s, s');
    forall r, x | Relied(links, s', r, x) ensures Firm(links, s', r, x) {
      assert Firm(links, s, r, x);
      FirmKept(links, s, s', r, x);
    }
    LivesKept(links, s, s');
  }

  lemma SameRefsCover(links: Links, s: State, s': State)
    requires s'.refs == s.refs && s'.runs == s.runs
    ensures CoverKept(links, s, s')
  {
    hide ToBeRead, Unscanned, Reaches;
  }

  /** Uploads, snapshots and refs the same or fewer: nothing more is relied on. */
  lemma ReliedOnNoMore(links: Links, s: State, s': State, r: RepoId, x: Oid)
    requires s'.src == s.src && s'.refs == s.refs && Relied(links, s', r, x)
    requires forall u :: u in s'.uploads ==> u in s.uploads && s'.uploads[u] == s.uploads[u]
    requires forall id :: id in s'.snaps ==> id in s.snaps && s'.snaps[id] == s.snaps[id]
    ensures Relied(links, s, r, x)
  {
    hide Reaches;
  }

  lemma TableStepKeepsInv(links: Links, s: State, s': State)
    requires Inv(links, s) && WellFormed(s') && OnlyGrows(s, s') && DeletesSafe(s')
    requires forall u :: u in s'.uploads ==> u in s.uploads && s'.uploads[u] == s.uploads[u]
    requires forall id :: id in s'.snaps ==> id in s.snaps && s'.snaps[id] == s.snaps[id]
    ensures Inv(links, s')
  {
    hide Firm, WellFormed, LiveKept, AllFirm, DeletesSafe, Relied, StoreKept;
    forall r, x | Relied(links, s', r, x) ensures Relied(links, s, r, x) {
      ReliedOnNoMore(links, s, s', r, x);
    }
    GrowthKeepsInv(links, s, s');
  }

  lemma TickKeepsInv(links: Links, s: State, secs: nat)
    requires Inv(links, s)
    ensures Inv(links, Next(links, s, Tick(secs)))
  {
    hide AllFirm, LiveKept;
    TableStepKeepsInv(links, s, Next(links, s, Tick(secs)));
  }

  lemma StampsRise(store: map<Oid, int>, objs: set<Oid>, touched: set<Oid>, now: int)
    requires forall x :: x in store ==> store[x] <= now
    ensures store.Keys <= Stamped(store, objs, touched, now).Keys
    ensures forall x :: x in Stamped(store, objs, touched, now) ==>
              Stamped(store, objs, touched, now)[x] <= now && (x in store ==> store[x] <= Stamped(store, objs, touched, now)[x])
  {
  }

  lemma LooseGrows(s: State, repo: RepoId, store: map<Oid, int>)
    requires WellFormed(s) && repo in s.loose && s.loose[repo].Keys <= store.Keys
    requires forall x :: x in store ==> store[x] <= s.now && (x in s.loose[repo] ==> s.loose[repo][x] <= store[x])
    ensures OnlyGrows(s, s.(loose := s.loose[repo := store])) && WellFormed(s.(loose := s.loose[repo := store]))
  {
  }

  lemma WriteLooseKeepsInv(links: Links, s: State, repo: RepoId, objs: set<Oid>, touched: set<Oid>)
    requires Inv(links, s) && Enabled(links, s, WriteLoose(repo, objs, touched))
    ensures Inv(links, Next(links, s, WriteLoose(repo, objs, touched)))
  {
    hide AllFirm, LiveKept, OnlyGrows, SafeDeletion, Stamped;
    StampsRise(s.loose[repo], objs, touched, s.now);
    LooseGrows(s, repo, Stamped(s.loose[repo], objs, touched, s.now));
    TableStepKeepsInv(links, s, Next(links, s, WriteLoose(repo, objs, touched)));
  }

  lemma PackGrows(s: State, repo: RepoId, objs: set<Oid>)
    requires WellFormed(s) && repo in s.packed
    ensures var s' := s.(packed := s.packed[repo := s.packed[repo] + objs]);
            OnlyGrows(s, s') && WellFormed(s')
  {
  }

  lemma WritePackKeepsInv(links: Links, s: State, repo: RepoId, objs: set<Oid>)
    requires Inv(links, s) && Enabled(links, s, WritePack(repo, objs))
    ensures Inv(links, Next(links, s, WritePack(repo, objs)))
  {
    hide AllFirm, LiveKept, OnlyGrows, WellFormed, SafeDeletion;
    PackGrows(s, repo, objs);
    TableStepKeepsInv(links, s, Next(links, s, WritePack(repo, objs)));
  }

  lemma DropKeepsInv(links: Links, s: State, u: UploadId)
    requires Inv(links, s) && Enabled(links, s, Drop(u))
    ensures Inv(links, Next(links, s, Drop(u)))
  {
    hide AllFirm, LiveKept;
    TableStepKeepsInv(links, s, Next(links, s, Drop(u)));
  }

  lemma SnapshotAbandonKeepsInv(links: Links, s: State, id: RepoId)
    requires Inv(links, s) && Enabled(links, s, SnapshotAbandon(id))
    ensures Inv(links, Next(links, s, SnapshotAbandon(id)))
  {
    hide AllFirm, LiveKept;
    TableStepKeepsInv(links, s, Next(links, s, SnapshotAbandon(id)));
  }

  lemma DeleteStartKeepsInv(links: Links, s: State, d: DeleteId, ids: seq<RepoId>)
    requires Inv(links, s) && Enabled(links, s, DeleteStart(d, ids)) && Benign(links, s, DeleteStart(d, ids))
    ensures Inv(links, Next(links, s, DeleteStart(d, ids)))
  {
    hide AllFirm, LiveKept, SafeDeletion;
    TableStepKeepsInv(links, s, Next(links, s, DeleteStart(d, ids)));
  }

  lemma DeleteEndKeepsInv(links: Links, s: State, d: DeleteId)
    requires Inv(links, s) && Enabled(links, s, DeleteEnd(d))
    ensures Inv(links, Next(links, s, DeleteEnd(d)))
  {
    hide AllFirm, LiveKept, SafeDeletion;
    TableStepKeepsInv(links, s, Next(links, s, DeleteEnd(d)));
  }

  lemma StageKeepsInv(links: Links, s: State, u: UploadId, repo: RepoId, tip: Oid, base: Option<Oid>)
    requires Inv(links, s) && Enabled(links, s, Stage(u, repo, tip, base))
    ensures Inv(links, Next(links, s, Stage(u, repo, tip, base)))
  {
    var s' := Next(links, s, Stage(u, repo, tip, base));
    SameStoresSameForm(s, s');
    hide Firm, WellFormed, LiveKept, AllFirm, SafeDeletion, RefsReach, SomeRefReaches;
    forall r, x | Relied(links, s', r, x) ensures Relied(links, s, r, x) {
      assert Carried(s', r, x) ==> Carried(s, r, x);
    }
    GrowthKeepsInv(links, s, s');
  }

  /** What a walk finds safe to see, it may rely on from then on. */
  lemma SeeKeepsInv(links: Links, s: State, u: UploadId, x: Oid)
    requires Inv(links, s) && Enabled(links, s, See(u, x)) && Benign(links, s, See(u, x))
    ensures Inv(links, Next(links, s, See(u, x)))
  {
    var s' := Next(links, s, See(u, x));
    SameStoresSameForm(s, s');
    forall r, y | Relied(links, s', r, y) ensures Relied(links, s, r, y) || Firm(links, s, r, y) {
      SeeAddsOne(links, s, u, x, r, y);
      if r == s.uploads[u].repo && y == x {
        if SafeCopy(s, r, x) {
          SafeCopyIsFirm(links, s, r, x);
        } else {
          ReachedUpstreamIsFirm(links, s, r, x);
        }
      }
    }
    hide *;
    SeeOnlyGrows(links, s, u, x);
    GrowthKeepsInv(links, s, s');
  }

  /** What a source of `r` relies on has a copy in the chain of `r` as well. */
  lemma ReachedUpstreamIsFirm(links: Links, s: State, r: RepoId, x: Oid)
    requires WellFormed(s) && AllFirm(links, s) && ChainReaches(links, s, r, x)
    ensures Firm(links, s, r, x)
  {
    hide FirmAt, InChain, SomeRefReaches;
    var a :| InChain(s.src, r, a) && RefsReach(links, s, a, x);
    assert Relied(links, s, a, x);
    var b :| InChain(s.src, a, b) && FirmAt(links, s, b, x);
    ChainJoin(s.src, r, a, b);
  }

  lemma SeeOnlyGrows(links: Links, s: State, u: UploadId, x: Oid)
    requires DeletesSafe(s) && Enabled(links, s, See(u, x))
    ensures OnlyGrows(s, Next(links, s, See(u, x))) && DeletesSafe(Next(links, s, See(u, x)))
  {
    hide Resolvable, RefsReach, SafeDeletion;
  }

  lemma SeeAddsOne(links: Links, s: State, u: UploadId, x: Oid, r: RepoId, y: Oid)
    requires Enabled(links, s, See(u, x)) && Relied(links, Next(links, s, See(u, x)), r, y)
    ensures Relied(links, s, r, y) || (r in s.src && r == s.uploads[u].repo && y == x)
  {
    hide Reaches;
    var s' := Next(links, s, See(u, x));
    if Carried(s', r, y) && !(r == s.uploads[u].repo && y == x) {
      assert Carried(s, r, y);
    }
  }

  /** What a fork reads from its source it can read itself, through its alternates chain. */
  lemma SnapshotReadKeepsInv(links: Links, s: State, id: RepoId, name: RefName)
    requires Inv(links, s) && Enabled(links, s, SnapshotRead(id, name))
    ensures Inv(links, Next(links, s, SnapshotRead(id, name)))
  {
    var s' := Next(links, s, SnapshotRead(id, name));
    SnapshotReadKeepsTables(links, s, id, name);
    forall r, x | Relied(links, s', r, x) ensures Relied(links, s, r, x) || Firm(links, s, r, x) {
      if !Relied(links, s, r, x) {
        ReadIsFirm(links, s, id, name, r, x);
      }
    }
    hide *;
    GrowthKeepsInv(links, s, s');
  }

  lemma SnapshotReadKeepsTables(links: Links, s: State, id: RepoId, name: RefName)
    requires WellFormed(s) && DeletesSafe(s) && Enabled(links, s, SnapshotRead(id, name))
    ensures var s' := Next(links, s, SnapshotRead(id, name));
            WellFormed(s') && DeletesSafe(s') && OnlyGrows(s, s')
  {
    hide Reaches, Resolvable, SafeDeletion, Snapshot;
    var s' := Next(links, s, SnapshotRead(id, name));
    assert s' == s.(snaps := s'.snaps);
    SameStoresSameForm(s, s');
  }

  lemma ReadIsFirm(links: Links, s: State, id: RepoId, name: RefName, r: RepoId, x: Oid)
    requires WellFormed(s) && AllFirm(links, s) && Enabled(links, s, SnapshotRead(id, name))
    requires Relied(links, Next(links, s, SnapshotRead(id, name)), r, x) && !Relied(links, s, r, x)
    ensures Firm(links, s, r, x)
  {
    var source := s.src[id].value;
    OnlyTheSnapshotGrows(links, s, id, name, r, x);
    ReadFromSource(links, s, id, name, x);
    hide FirmAt, WellFormed, InChain, Enabled, Next, RefsReach, Carried, SomeRefReaches, Snapshot;
    assert Relied(links, s, source, x);
    var a :| InChain(s.src, source, a) && FirmAt(links, s, a, x);
    ChainUp(s.src, id, source, a);
  }

  lemma OnlyTheSnapshotGrows(links: Links, s: State, id: RepoId, name: RefName, r: RepoId, x: Oid)
    requires Enabled(links, s, SnapshotRead(id, name))
    requires Relied(links, Next(links, s, SnapshotRead(id, name)), r, x) && !Relied(links, s, r, x)
    ensures r == id && !SomeRefReaches(links, Snapshot(s, id), x)
    ensures SomeRefReaches(links, Snapshot(Next(links, s, SnapshotRead(id, name)), id), x)
  {
    hide Reaches, RefReaches;
    var s' := Next(links, s, SnapshotRead(id, name));
    assert Carried(s', r, x) ==> Carried(s, r, x);
  }

  lemma ReadFromSource(links: Links, s: State, id: RepoId, name: RefName, x: Oid)
    requires WellFormed(s) && Enabled(links, s, SnapshotRead(id, name))
    requires SomeRefReaches(links, Snapshot(Next(links, s, SnapshotRead(id, name)), id), x)
    requires !SomeRefReaches(links, Snapshot(s, id), x)
    ensures s.src[id].value in s.src && RefsReach(links, s, s.src[id].value, x)
  {
    hide Reaches;
    var after := Snapshot(Next(links, s, SnapshotRead(id, name)), id);
    var n :| RefReaches(links, after, n, x);
    assert n != name ==> RefReaches(links, Snapshot(s, id), n, x);
    assert n == name ==> RefReaches(links, s.refs[s.src[id].value], name, x);
  }

  // ── steps that change refs ───────────────────────────────────────────

  /** The refs of one repo change; those still to be read reach no less than before. */
  ghost predicate RefsKeepReaching(links: Links, s: State, repo: RepoId, refs: RefMap)
    requires repo in s.refs
  {
    forall n, x :: AwaitsRead(s, repo, n) && RefReaches(links, s.refs[repo], n, x) ==> RefReaches(links, refs, n, x)
  }

  lemma RefChangeCovers(links: Links, s: State, s': State, repo: RepoId, refs: RefMap)
    requires repo in s.refs && s'.refs == s.refs[repo := refs] && s'.runs == s.runs
    requires RefsKeepReaching(links, s, repo, refs)
    ensures CoverKept(links, s, s')
  {
    hide RefReaches, ToBeRead, Unscanned;
    forall k, m, n, x | k in s.runs && CoveredBy(links, s, s.runs[k], m, n, x)
      ensures CoveredBy(links, s', s.runs[k], m, n, x)
    {
      if m == repo {
        assert AwaitsRead(s, repo, n);
      }
    }
  }

  lemma RefChangeKeepsInv(links: Links, s: State, s': State, repo: RepoId, refs: RefMap)
    requires Inv(links, s) && repo in s.refs && s' == s.(refs := s.refs[repo := refs], snaps := s'.snaps)
    requires RefsKeepReaching(links, s, repo, refs)
    requires forall r, x :: Relied(links, s', r, x) ==> Firm(links, s, r, x)
    ensures Inv(links, s')
  {
    assert WellFormed(s') && DeletesSafe(s');
    hide Firm, WellFormed, LiveKept, DeletesSafe, Relied, RefsKeepReaching, InChain;
    RefChangeCovers(links, s, s', repo, refs);
    forall r, x | Relied(links, s', r, x) ensures Firm(links, s', r, x) {
      FirmKept(links, s, s', r, x);
    }
    LivesKept(links, s, s');
  }

  lemma AdvanceKeepsInv(links: Links, s: State, u: UploadId, name: RefName)
    requires Inv(links, s) && Enabled(links, s, Advance(u, name)) && Benign(links, s, Advance(u, name))
    ensures Inv(links, Next(links, s, Advance(u, name)))
  {
    hide Firm, LiveKept, DeletesSafe, AwaitsRead, Reaches;
    var s' := Next(links, s, Advance(u, name));
    var up := s.uploads[u];
    var repo := up.repo;
    var refs := s.refs[repo][name := up.tip];
    forall n, x | AwaitsRead(s, repo, n) && RefReaches(links, s.refs[repo], n, x) ensures RefReaches(links, refs, n, x) {
      if n == name {
        ReachesTransitive(links, up.tip, s.refs[repo][n], x);
      }
    }
    forall r, x | Relied(links, s', r, x) ensures Relied(links, s, r, x) {
      AdvanceAddsNothing(links, s, u, name, r, x);
    }
    RefChangeKeepsInv(links, s, s', repo, refs);
  }

  /** The new tip needs only what the upload carried and what the old tip reached. */
  lemma AdvanceAddsNothing(links: Links, s: State, u: UploadId, name: RefName, r: RepoId, x: Oid)
    requires WellFormed(s) && Enabled(links, s, Advance(u, name))
    requires Relied(links, Next(links, s, Advance(u, name)), r, x)
    ensures Relied(links, s, r, x)
  {
    hide Reaches;
    var s' := Next(links, s, Advance(u, name));
    var up := s.uploads[u];
    if RefsReach(links, s', r, x) {
      var n :| RefReaches(links, s'.refs[r], n, x);
      if r == up.repo && n == name {
        assert x in up.carried ==> Carried(s, r, x);
        assert x !in up.carried ==> RefReaches(links, s.refs[r], name, x);
      } else {
        assert RefReaches(links, s.refs[r], n, x);
      }
    } else {
      assert Carried(s', r, x) ==> Carried(s, r, x);
    }
  }

  lemma DropRefKeepsInv(links: Links, s: State, repo: RepoId, name: RefName)
    requires Inv(links, s) && Enabled(links, s, DropRef(repo, name)) && Benign(links, s, DropRef(repo, name))
    ensures Inv(links, Next(links, s, DropRef(repo, name)))
  {
    hide Firm, LiveKept, DeletesSafe, AwaitsRead, Reaches;
    var s' := Next(links, s, DropRef(repo, name));
    forall r, x | Relied(links, s', r, x) ensures Relied(links, s, r, x) {
      DropRefAddsNothing(links, s, repo, name, r, x);
    }
    RefChangeKeepsInv(links, s, s', repo, s.refs[repo] - {name});
  }

  lemma DropRefAddsNothing(links: Links, s: State, repo: RepoId, name: RefName, r: RepoId, x: Oid)
    requires Enabled(links, s, DropRef(repo, name)) && Relied(links, Next(links, s, DropRef(repo, name)), r, x)
    ensures Relied(links, s, r, x)
  {
    hide Reaches;
    var s' := Next(links, s, DropRef(repo, name));
    if RefsReach(links, s', r, x) {
      var n :| RefReaches(links, s'.refs[r], n, x);
      assert RefReaches(links, s.refs[r], n, x);
    } else {
      assert Carried(s', r, x) ==> Carried(s, r, x);
    }
  }

  /** A fork may write the refs it has read at any time, whatever has become of the source's refs. */
  lemma SnapshotWriteKeepsInv(links: Links, s: State, id: RepoId)
    requires Inv(links, s) && Enabled(links, s, SnapshotWrite(id))
    ensures Inv(links, Next(links, s, SnapshotWrite(id)))
  {
    hide Firm, LiveKept, DeletesSafe, AwaitsRead, Reaches;
    var s' := Next(links, s, SnapshotWrite(id));
    forall r, x | Relied(links, s', r, x) ensures Relied(links, s, r, x) {
      WriteAddsNothing(links, s, id, r, x);
    }
    RefChangeKeepsInv(links, s, s', id, s.snaps[id] + s.refs[id]);
  }

  lemma WriteAddsNothing(links: Links, s: State, id: RepoId, r: RepoId, x: Oid)
    requires Enabled(links, s, SnapshotWrite(id)) && Relied(links, Next(links, s, SnapshotWrite(id)), r, x)
    ensures Relied(links, s, r, x)
  {
    hide Reaches;
    var s' := Next(links, s, SnapshotWrite(id));
    if RefsReach(links, s', r, x) {
      var n :| RefReaches(links, s'.refs[r], n, x);
      assert RefReaches(links, s.refs[r], n, x) || RefReaches(links, Snapshot(s, r), n, x);
    } else if Carried(s', r, x) {
      assert Carried(s, r, x);
    } else {
      assert r != id && Snapshot(s', r) == Snapshot(s, r);
    }
  }

  // ── steps that change the repo set ───────────────────────────────────

  lemma AddCovers(links: Links, s: State, id: RepoId, source: Option<RepoId>)
    requires WellFormed(s) && id !in s.src && !AwaitsScan(s, id)
    ensures CoverKept(links, s, AddRepo(s, id, source))
  {
    hide RefReaches, Unscanned;
    var s' := AddRepo(s, id, source);
    forall k, m, n, x | k in s.runs && CoveredBy(links, s, s.runs[k], m, n, x)
      ensures CoveredBy(links, s', s.runs[k], m, n, x)
    {
      assert m != id;
    }
  }

  lemma ChainAfterAdd(s: State, id: RepoId, source: Option<RepoId>, r: RepoId, a: RepoId)
    requires WellFormed(s) && id !in s.src && r in s.src && InChain(s.src, r, a)
    ensures InChain(AddRepo(s, id, source).src, r, a) && StoreKept(s, AddRepo(s, id, source), a)
  {
    var n: nat :| Uses(s.src, r, a, n);
    ChainsKeptByAdd(s.src, id, source, r, a, n);
  }

  lemma FirmAfterAdd(links: Links, s: State, id: RepoId, source: Option<RepoId>, r: RepoId, x: Oid)
    requires WellFormed(s) && id !in s.src && !AwaitsScan(s, id) && r in s.src && Firm(links, s, r, x)
    ensures Firm(links, AddRepo(s, id, source), r, x)
  {
    hide WellFormed, AwaitsScan, Firm, AddRepo, InChain, StoreKept, CoverKept;
    forall a | InChain(s.src, r, a) ensures InChain(AddRepo(s, id, source).src, r, a) && StoreKept(s, AddRepo(s, id, source), a) {
      ChainAfterAdd(s, id, source, r, a);
    }
    AddCovers(links, s, id, source);
    FirmKept(links, s, AddRepo(s, id, source), r, x);
  }

  /** A new repo has no refs, and no upload or snapshot of an earlier holder of its id is left. */
  lemma AddedRepoNeedsNothing(links: Links, s: State, id: RepoId, source: Option<RepoId>, r: RepoId, x: Oid)
    requires Unused(s, id) && Relied(links, AddRepo(s, id, source), r, x)
    ensures r != id && Relied(links, s, r, x)
  {
    hide Reaches, AwaitsScan;
    var s' := AddRepo(s, id, source);
    if RefsReach(links, s', r, x) {
      assert r != id && s'.refs[r] == s.refs[r];
    } else if Carried(s', r, x) {
      assert Carried(s, r, x);
    }
  }

  lemma AddKeepsDeletesSafe(s: State, id: RepoId, source: Option<RepoId>)
    requires DeletesSafe(s) && (source.Some? ==> forall d :: d in s.deletes ==> source.value !in s.deletes[d])
    ensures DeletesSafe(AddRepo(s, id, source))
  {
    forall d | d in s.deletes ensures SafeDeletion(s.src[id := source], s.deletes[d]) {
      var order := s.deletes[d];
      assert SafeDeletion(s.src, order);
    }
  }

  lemma AddKeepsTables(links: Links, s: State, id: RepoId, source: Option<RepoId>)
    requires WellFormed(s) && (source.Some? ==> source.value in s.src)
    ensures WellFormed(AddRepo(s, id, source))
  {
  }

  lemma AddRepoKeepsInv(links: Links, s: State, id: RepoId, source: Option<RepoId>)
    requires Inv(links, s) && id !in s.src && Unused(s, id)
    requires source.Some? ==> source.value in s.src && forall d :: d in s.deletes ==> source.value !in s.deletes[d]
    ensures Inv(links, AddRepo(s, id, source))
  {
    var s' := AddRepo(s, id, source);
    AddKeepsDeletesSafe(s, id, source);
    AddKeepsTables(links, s, id, source);
    AddCovers(links, s, id, source);
    LivesKept(links, s, s');
    forall r, x | Relied(links, s', r, x) ensures Firm(links, s', r, x) {
      AddedRepoNeedsNothing(links, s, id, source, r, x);
      ReliedIsFirmAfterAdd(links, s, id, source, r, x);
    }
  }

  lemma ReliedIsFirmAfterAdd(links: Links, s: State, id: RepoId, source: Option<RepoId>, r: RepoId, x: Oid)
    requires WellFormed(s) && AllFirm(links, s) && id !in s.src && !AwaitsScan(s, id) && Relied(links, s, r, x)
    ensures Firm(links, AddRepo(s, id, source), r, x)
  {
    FirmAfterAdd(links, s, id, source, r, x);
  }

  lemma CreateKeepsInv(links: Links, s: State, id: RepoId)
    requires Inv(links, s) && Enabled(links, s, Create(id)) && Benign(links, s, Create(id))
    ensures Inv(links, Next(links, s, Create(id)))
  {
    hide Inv, Unused;
    AddRepoKeepsInv(links, s, id, None);
  }

  lemma ForkLinkKeepsInv(links: Links, s: State, source: RepoId, id: RepoId)
    requires Inv(links, s) && Enabled(links, s, ForkLink(source, id)) && Benign(links, s, ForkLink(source, id))
    ensures Inv(links, Next(links, s, ForkLink(source, id)))
  {
    hide Inv, Unused;
    AddRepoKeepsInv(links, s, id, Some(source));
  }

  /** The next repo of a checked delete request has no forks left, and the rest of the request stays in order. */
  lemma NextOneHasNoForks(src: Sources, ids: seq<RepoId>)
    requires SafeDeletion(src, ids) && ids != []
    ensures forall q :: q in src && q != ids[0] ==> src[q] != Some(ids[0])
    ensures SafeDeletion(src - {ids[0]}, ids[1..])
  {
    assert ids[..1] == [ids[0]];
    forall k, x | 0 <= k <= |ids[1..]| && x in src - {ids[0]} && x !in ids[1..][..k] && src[x].Some?
      ensures src[x].value !in ids[1..][..k]
    {
      assert ids[..k + 1] == [ids[0]] + ids[1..][..k];
    }
  }

  lemma SafeWithFewer(src: Sources, id: RepoId, ids: seq<RepoId>)
    requires SafeDeletion(src, ids)
    ensures SafeDeletion(src - {id}, ids)
  {
  }

  lemma RemoveCovers(links: Links, s: State, id: RepoId)
    requires !InScan(s, id)
    ensures CoverKept(links, s, RemoveRepo(s, id))
  {
    hide RefReaches;
    var s' := RemoveRepo(s, id);
    forall k, m, n, x | k in s.runs && CoveredBy(links, s, s.runs[k], m, n, x)
      ensures CoveredBy(links, s', s.runs[k], m, n, x)
    {
      assert m in s'.refs ==> s'.refs[m] == s.refs[m];
    }
  }

  lemma ChainAfterRemove(s: State, id: RepoId, r: RepoId, a: RepoId)
    requires r != id && InChain(s.src, r, a) && forall q :: q in s.src && q != id ==> s.src[q] != Some(id)
    ensures InChain(RemoveRepo(s, id).src, r, a) && StoreKept(s, RemoveRepo(s, id), a)
  {
    var n: nat :| Uses(s.src, r, a, n);
    ChainsKeptByDelete(s.src, id, r, a, n);
  }

  lemma FirmAfterRemove(links: Links, s: State, id: RepoId, r: RepoId, x: Oid)
    requires !InScan(s, id) && r != id && Firm(links, s, r, x)
    requires forall q :: q in s.src && q != id ==> s.src[q] != Some(id)
    ensures Firm(links, RemoveRepo(s, id), r, x)
  {
    hide InScan, Firm, RemoveRepo, InChain, StoreKept, CoverKept;
    forall a | InChain(s.src, r, a) ensures InChain(RemoveRepo(s, id).src, r, a) && StoreKept(s, RemoveRepo(s, id), a) {
      ChainAfterRemove(s, id, r, a);
    }
    RemoveCovers(links, s, id);
    FirmKept(links, s, RemoveRepo(s, id), r, x);
  }

  lemma RemovalAddsNothing(links: Links, s: State, id: RepoId, r: RepoId, x: Oid)
    requires Relied(links, RemoveRepo(s, id), r, x)
    ensures r != id && Relied(links, s, r, x)
  {
    hide Reaches;
    var s' := RemoveRepo(s, id);
    if RefsReach(links, s', r, x) {
      assert s'.refs[r] == s.refs[r];
    } else if Carried(s', r, x) {
      assert Carried(s, r, x);
    }
  }

  lemma RemovalKeepsTables(links: Links, s: State, id: RepoId)
    requires WellFormed(s) && DeletesSafe(s)
    requires forall q :: q in s.src && q != id ==> s.src[q] != Some(id)
    ensures WellFormed(RemoveRepo(s, id)) && DeletesSafe(RemoveRepo(s, id))
  {
    hide Reaches, SafeDeletion;
    forall d | d in s.deletes ensures SafeDeletion(s.src - {id}, s.deletes[d]) {
      SafeWithFewer(s.src, id, s.deletes[d]);
    }
  }

  lemma RemoveRepoKeepsInv(links: Links, s: State, id: RepoId)
    requires Inv(links, s) && !InScan(s, id)
    requires forall q :: q in s.src && q != id ==> s.src[q] != Some(id)
    ensures Inv(links, RemoveRepo(s, id))
  {
    hide WellFormed, SafeDeletion, DeletesSafe, Relied, Firm, LiveKept, InScan, RemoveRepo;
    var s' := RemoveRepo(s, id);
    RemovalKeepsTables(links, s, id);
    RemoveCovers(links, s, id);
    LivesKept(links, s, s');
    forall r, x | Relied(links, s', r, x) ensures Firm(links, s', r, x) {
      RemovalAddsNothing(links, s, id, r, x);
      FirmAfterRemove(links, s, id, r, x);
    }
  }

  lemma DeleteNextKeepsInv(links: Links, s: State, d: DeleteId)
    requires Inv(links, s) && Enabled(links, s, DeleteNext(d)) && Benign(links, s, DeleteNext(d))
    ensures Inv(links, Next(links, s, DeleteNext(d)))
  {
    var id := s.deletes[d][0];
    NextOneHasNoForks(s.src, s.deletes[d]);
    var s1, s' := RemoveRepo(s, id), Next(links, s, DeleteNext(d));
    RemoveRepoKeepsInv(links, s, id);
    RestOfDelete(links, s1, d, s.deletes[d][1..]);
    assert s' == s1.(deletes := s1.deletes[d := s.deletes[d][1..]]);
  }

  lemma RestOfDelete(links: Links, s: State, d: DeleteId, ids: seq<RepoId>)
    requires Inv(links, s) && SafeDeletion(s.src, ids)
    ensures Inv(links, s.(deletes := s.deletes[d := ids]))
  {
    hide AllFirm, LiveKept, SafeDeletion;
    TableStepKeepsInv(links, s, s.(deletes := s.deletes[d := ids]));
  }

  lemma SameStoresSameForm(s: State, s': State)
    requires WellFormed(s) && s'.now == s.now && s'.src == s.src && s'.loose == s.loose && s'.packed == s.packed && s'.refs == s.refs
    ensures WellFormed(s')
  {
  }

  // ── the steps of the runs ────────────────────────────────────────────

  lemma RunStepKeepsInv(links: Links, s: State, s': State)
    requires Inv(links, s) && WellFormed(s') && LiveKept(links, s')
    requires s'.src == s.src && s'.refs == s.refs && s'.uploads == s.uploads && s'.snaps == s.snaps && s'.deletes == s.deletes
    requires forall a, x :: FirmAt(links, s, a, x) ==> FirmAt(links, s', a, x)
    ensures Inv(links, s')
  {
    assert DeletesSafe(s');
    hide FirmAt, InChain, LiveKept, WellFormed, DeletesSafe, Relied;
    forall r, x | Relied(links, s', r, x) ensures Firm(links, s', r, x) {
      ReliedOnNoMore(links, s, s', r, x);
      var a :| InChain(s.src, r, a) && FirmAt(links, s, a, x);
      assert FirmAt(links, s', a, x);
    }
  }

  lemma PromisedSame(links: Links, s: State, s': State, r: Run, r': Run, x: Oid)
    requires s'.refs == s.refs && r'.network == r.network && r'.toRead == r.toRead && r'.reach == r.reach
    ensures Promised(links, s, r, x) <==> Promised(links, s', r', x)
  {
    hide RefReaches;
    assert forall m, n :: CoveredBy(links, s, r, m, n, x) <==> CoveredBy(links, s', r', m, n, x);
  }

  /** `s'` is `s` with one run changed. */
  ghost predicate OneRun(s: State, s': State, k: RunId) {
    k in s.runs && k in s'.runs && s' == s.(runs := s.runs[k := s'.runs[k]]) && s'.runs[k].repo == s.runs[k].repo
  }

  lemma OneRunFirmAt(links: Links, s: State, s': State, k: RunId, a: RepoId, x: Oid)
    requires OneRun(s, s', k)
    ensures a != s.runs[k].repo ==> (FirmAt(links, s, a, x) <==> FirmAt(links, s', a, x))
    ensures (Spared(links, s, s.runs[k], x) ==> Spared(links, s', s'.runs[k], x)) && FirmAt(links, s, a, x) ==>
              FirmAt(links, s', a, x)
    ensures (Spared(links, s', s'.runs[k], x) ==> Spared(links, s, s.runs[k], x)) && FirmAt(links, s', a, x) ==>
              FirmAt(links, s, a, x)
  {
    hide Promised;
    forall j | j in s.runs && j != k ensures Spared(links, s, s.runs[j], x) <==> Spared(links, s', s'.runs[j], x) {
      PromisedSame(links, s, s', s.runs[j], s'.runs[j], x);
    }
  }

  /** A step that changes neither what a run has reported nor what it has still to read. */
  lemma QuietStepKeepsLive(links: Links, s: State, s': State, k: RunId)
    requires Inv(links, s) && s'.refs == s.refs && k in s.runs && k in s'.runs && s'.runs == s.runs[k := s'.runs[k]]
    requires s'.runs[k].live == s.runs[k].live && s'.runs[k].network == s.runs[k].network
             && s'.runs[k].toRead == s.runs[k].toRead && s'.runs[k].reach == s.runs[k].reach
    ensures LiveKept(links, s')
  {
    hide Promised, AllFirm, DeletesSafe, WellFormed;
    forall j, x | j in s'.runs && x in s'.runs[j].live ensures Promised(links, s', s'.runs[j], x) {
      PromisedSame(links, s, s', s.runs[j], s'.runs[j], x);
    }
  }

  lemma OneRunKeepsInv(links: Links, s: State, s': State, k: RunId)
    requires Inv(links, s) && OneRun(s, s', k) && LiveKept(links, s')
    requires forall x :: Spared(links, s, s.runs[k], x) ==> Spared(links, s', s'.runs[k], x)
    ensures Inv(links, s')
  {
    SameStoresSameForm(s, s');
    hide AllFirm, LiveKept, FirmAt, WellFormed, DeletesSafe, Spared;
    forall a, x | FirmAt(links, s, a, x) ensures FirmAt(links, s', a, x) {
      OneRunFirmAt(links, s, s', k, a, x);
    }
    RunStepKeepsInv(links, s, s');
  }

  // starting

  lemma NewRunFirmAt(links: Links, s: State, s': State, k: RunId, a: RepoId, x: Oid)
    requires k !in s.runs && k in s'.runs && s' == s.(runs := s.runs[k := s'.runs[k]]) && FirmAt(links, s, a, x)
    requires s'.runs[k].repo == a ==> x in s.packed[a] || Spared(links, s', s'.runs[k], x)
    ensures FirmAt(links, s', a, x)
  {
    hide Promised;
    forall j | j in s.runs ensures Spared(links, s, s.runs[j], x) <==> Spared(links, s', s'.runs[j], x) {
      PromisedSame(links, s, s', s.runs[j], s'.runs[j], x);
    }
  }

  /** All that the network's refs reach when a run starts is still to be reported. */
  lemma NewRunPromises(links: Links, s: State, k: RunId, repo: RepoId, cutoff: int, network: set<RepoId>, x: Oid)
    requires Enabled(links, s, RunStart(k, repo, cutoff, network))
    requires x in Next(links, s, RunStart(k, repo, cutoff, network)).runs[k].live
    ensures var s' := Next(links, s, RunStart(k, repo, cutoff, network));
            Promised(links, s', s'.runs[k], x)
  {
    hide Reaches;
    var s' := Next(links, s, RunStart(k, repo, cutoff, network));
    var m :| m in network && RefsReach(links, s, m, x);
    var n :| RefReaches(links, s.refs[m], n, x);
    assert CoveredBy(links, s', s'.runs[k], m, n, x);
  }

  lemma RunStartKeepsLive(links: Links, s: State, k: RunId, repo: RepoId, cutoff: int, network: set<RepoId>)
    requires LiveKept(links, s) && Enabled(links, s, RunStart(k, repo, cutoff, network))
    ensures LiveKept(links, Next(links, s, RunStart(k, repo, cutoff, network)))
  {
    hide Promised;
    var s' := Next(links, s, RunStart(k, repo, cutoff, network));
    forall j, x | j in s'.runs && x in s'.runs[j].live ensures Promised(links, s', s'.runs[j], x) {
      if j == k {
        NewRunPromises(links, s, k, repo, cutoff, network, x);
      } else {
        PromisedSame(links, s, s', s.runs[j], s'.runs[j], x);
      }
    }
  }

  lemma FirmUnderStart(links: Links, s: State, k: RunId, repo: RepoId, cutoff: int, network: set<RepoId>, r: RepoId, x: Oid)
    requires Inv(links, s) && Enabled(links, s, RunStart(k, repo, cutoff, network)) && Firm(links, s, r, x)
    requires var s' := Next(links, s, RunStart(k, repo, cutoff, network));
             InChain(s.src, r, repo) ==> Outlasts(s', k, x) || SafeCopy(s', r, x)
    ensures Firm(links, Next(links, s, RunStart(k, repo, cutoff, network)), r, x)
  {
    hide FirmAt, AllFirm, DeletesSafe, LiveKept, InChain, Promised, SafeCopy;
    var s' := Next(links, s, RunStart(k, repo, cutoff, network));
    RunStartKeepsLive(links, s, k, repo, cutoff, network);
    var a :| InChain(s.src, r, a) && FirmAt(links, s, a, x);
    if a == repo && !Outlasts(s', k, x) {
      SafeCopyIsFirm(links, s', r, x);
    } else {
      if a == repo && x in s'.runs[k].live {
        NewRunPromises(links, s, k, repo, cutoff, network, x);
      }
      NewRunFirmAt(links, s, s', k, a, x);
    }
  }

  lemma RunStartKeepsInv(links: Links, s: State, k: RunId, repo: RepoId, cutoff: int, network: set<RepoId>)
    requires Inv(links, s) && Enabled(links, s, RunStart(k, repo, cutoff, network))
    requires Benign(links, s, RunStart(k, repo, cutoff, network))
    ensures Inv(links, Next(links, s, RunStart(k, repo, cutoff, network)))
  {
    var s' := Next(links, s, RunStart(k, repo, cutoff, network));
    assert DeletesSafe(s');
    SameStoresSameForm(s, s');
    hide Firm, SafeCopy, LiveKept, WellFormed, Relied, DeletesSafe, NewRun, Outlasts, InChain;
    RunStartKeepsLive(links, s, k, repo, cutoff, network);
    forall r, x | Relied(links, s', r, x) ensures Firm(links, s', r, x) {
      ReliedOnNoMore(links, s, s', r, x);
      FirmUnderStart(links, s, k, repo, cutoff, network, r, x);
    }
  }

  // listing

  /** An entry that joins the listing is as young as the object was on disk. */
  lemma ListOneSpared(links: Links, s: State, k: RunId, o: Oid, x: Oid)
    requires Enabled(links, s, RunListOne(k, o))
    ensures var s' := Next(links, s, RunListOne(k, o));
            Spared(links, s, s.runs[k], x) <==> Spared(links, s', s'.runs[k], x)
  {
    hide Promised;
    var s' := Next(links, s, RunListOne(k, o));
    PromisedSame(links, s, s', s.runs[k], s'.runs[k], x);
  }

  lemma RunListOneKeepsInv(links: Links, s: State, k: RunId, o: Oid)
    requires Inv(links, s) && Enabled(links, s, RunListOne(k, o))
    ensures Inv(links, Next(links, s, RunListOne(k, o)))
  {
    var s' := Next(links, s, RunListOne(k, o));
    hide Inv, Spared;
    forall x ensures Spared(links, s, s.runs[k], x) ==> Spared(links, s', s'.runs[k], x) {
      ListOneSpared(links, s, k, o, x);
    }
    QuietStepKeepsLive(links, s, s', k);
    OneRunKeepsInv(links, s, s', k);
  }

  /** What the listing missed the run leaves alone; if it missed nothing, closing it changes nothing. */
  lemma ListDoneSpared(links: Links, s: State, k: RunId, x: Oid)
    requires Enabled(links, s, RunListDone(k))
    ensures var s' := Next(links, s, RunListDone(k));
            && (Spared(links, s, s.runs[k], x) ==> Spared(links, s', s'.runs[k], x))
            && (x in s.runs[k].listed ==> (Spared(links, s, s.runs[k], x) <==> Spared(links, s', s'.runs[k], x)))
  {
    hide Promised;
    var s' := Next(links, s, RunListDone(k));
    PromisedSame(links, s, s', s.runs[k], s'.runs[k], x);
  }

  lemma RunListDoneKeepsInv(links: Links, s: State, k: RunId)
    requires Inv(links, s) && Enabled(links, s, RunListDone(k))
    ensures Inv(links, Next(links, s, RunListDone(k)))
  {
    var s' := Next(links, s, RunListDone(k));
    hide Inv, Spared;
    forall x ensures Spared(links, s, s.runs[k], x) ==> Spared(links, s', s'.runs[k], x) {
      ListDoneSpared(links, s, k, x);
    }
    QuietStepKeepsLive(links, s, s', k);
    OneRunKeepsInv(links, s, s', k);
  }

  // scanning

  /** Fixing the names to read loses none that a promise rests on. */
  lemma ScanBeginPromised(links: Links, s: State, k: RunId, member: RepoId, x: Oid)
    requires Enabled(links, s, RunScanBegin(k, member))
    ensures var s' := Next(links, s, RunScanBegin(k, member));
            Promised(links, s, s.runs[k], x) <==> Promised(links, s', s'.runs[k], x)
  {
    hide Reaches;
    var s' := Next(links, s, RunScanBegin(k, member));
    forall m, n ensures CoveredBy(links, s, s.runs[k], m, n, x) <==> CoveredBy(links, s', s'.runs[k], m, n, x) {
    }
  }

  /** Reading a ref trades "will be reported" for "was reported". */
  lemma ReadPromised(links: Links, s: State, k: RunId, member: RepoId, name: RefName, x: Oid)
    requires Enabled(links, s, RunRead(k, member, name)) && member in s.runs[k].network
    ensures var s' := Next(links, s, RunRead(k, member, name));
            Promised(links, s, s.runs[k], x) <==> Promised(links, s', s'.runs[k], x)
  {
    hide Reaches;
    var s' := Next(links, s, RunRead(k, member, name));
    var r, r' := s.runs[k], s'.runs[k];
    forall m, n | (m, n) != (member, name) ensures CoveredBy(links, s, r, m, n, x) <==> CoveredBy(links, s', r', m, n, x) {
    }
    assert CoveredBy(links, s, r, member, name, x) <==> x in Closure(links, s, member, name);
    assert !CoveredBy(links, s', r', member, name, x);
  }

  /** A step of a scan keeps every promise of its run. */
  lemma ScanStepKeepsInv(links: Links, s: State, s': State, k: RunId)
    requires Inv(links, s) && OneRun(s, s', k) && s'.runs[k].live == s.runs[k].live
    requires s'.runs[k] == s.runs[k].(toRead := s'.runs[k].toRead, reach := s'.runs[k].reach)
    requires forall x :: Promised(links, s, s.runs[k], x) ==> Promised(links, s', s'.runs[k], x)
    ensures Inv(links, s')
  {
    hide AllFirm, DeletesSafe, WellFormed, Promised;
    forall j, x | j in s'.runs && x in s'.runs[j].live ensures Promised(links, s', s'.runs[j], x) {
      if j != k {
        PromisedSame(links, s, s', s.runs[j], s'.runs[j], x);
      }
    }
    OneRunKeepsInv(links, s, s', k);
  }

  lemma RunScanBeginKeepsInv(links: Links, s: State, k: RunId, member: RepoId)
    requires Inv(links, s) && Enabled(links, s, RunScanBegin(k, member))
    ensures Inv(links, Next(links, s, RunScanBegin(k, member)))
  {
    var s' := Next(links, s, RunScanBegin(k, member));
    hide Inv, Promised;
    forall x ensures Promised(links, s, s.runs[k], x) ==> Promised(links, s', s'.runs[k], x) {
      ScanBeginPromised(links, s, k, member, x);
    }
    ScanStepKeepsInv(links, s, s', k);
  }

  lemma RunReadKeepsInv(links: Links, s: State, k: RunId, member: RepoId, name: RefName)
    requires Inv(links, s) && Enabled(links, s, RunRead(k, member, name))
    ensures Inv(links, Next(links, s, RunRead(k, member, name)))
  {
    var s' := Next(links, s, RunRead(k, member, name));
    hide Inv, Promised;
    forall x ensures Promised(links, s, s.runs[k], x) ==> Promised(links, s', s'.runs[k], x) {
      ReadPromised(links, s, k, member, name, x);
    }
    ScanStepKeepsInv(links, s, s', k);
  }

  // deleting

  /** A run about to delete has read everything, so it spares only what is young or reported. */
  lemma NothingLeftToRead(links: Links, s: State, r: Run, x: Oid)
    requires ScanOver(r)
    ensures Promised(links, s, r, x) <==> x in r.reach
  {
    assert forall m, n :: !ToBeRead(r, m, n);
  }

  lemma RemovedSpared(links: Links, s: State, k: RunId, o: Oid, j: RunId, x: Oid)
    requires k in s.runs && s.runs[k].closed && j in s.runs && (x != o || s.runs[j].repo != s.runs[k].repo)
    ensures var s' := Removed(s, k, o);
            Spared(links, s, s.runs[j], x) <==> Spared(links, s', s'.runs[j], x)
  {
    hide Promised;
    var s' := Removed(s, k, o);
    PromisedSame(links, s, s', s.runs[j], s'.runs[j], x);
  }

  /** The delete takes no copy that was out of reach of the runs, and puts none out of reach. */
  lemma RemovedFirmAt(links: Links, s: State, k: RunId, o: Oid, a: RepoId, x: Oid)
    requires k in s.runs && s.runs[k].closed && !Spared(links, s, s.runs[k], o)
    ensures FirmAt(links, s, a, x) <==> FirmAt(links, Removed(s, k, o), a, x)
  {
    hide Spared;
    var s' := Removed(s, k, o);
    if a != s.runs[k].repo || x != o {
      forall j | j in s.runs && s.runs[j].repo == a
        ensures Spared(links, s, s.runs[j], x) <==> Spared(links, s', s'.runs[j], x)
      {
        RemovedSpared(links, s, k, o, j, x);
      }
    }
  }

  lemma DoomedIsNotSpared(links: Links, s: State, r: Run, o: Oid)
    requires ScanOver(r) && Doomed(r, o)
    ensures !Spared(links, s, r, o)
  {
    NothingLeftToRead(links, s, r, o);
    hide Promised, ScanOver;
  }

  lemma RemovedIsWellFormed(s: State, k: RunId, o: Oid)
    requires WellFormed(s) && k in s.runs
    ensures WellFormed(Removed(s, k, o))
  {
  }

  lemma RunDeleteKeepsInv(links: Links, s: State, k: RunId, o: Oid)
    requires Inv(links, s) && Enabled(links, s, RunDelete(k, o))
    ensures Inv(links, Next(links, s, RunDelete(k, o)))
  {
    var s' := Removed(s, k, o);
    assert k in s.runs && s.runs[k].closed && ScanOver(s.runs[k]) && Doomed(s.runs[k], o) && Next(links, s, RunDelete(k, o)) == s';
    hide Enabled, Next, Inv, Spared, FirmAt, ScanOver, Doomed;
    DoomedIsNotSpared(links, s, s.runs[k], o);
    RemovedKeepsInv(links, s, k, o);
  }

  lemma RemovedKeepsInv(links: Links, s: State, k: RunId, o: Oid)
    requires Inv(links, s) && k in s.runs && s.runs[k].closed && !Spared(links, s, s.runs[k], o)
    ensures Inv(links, Removed(s, k, o))
  {
    var s' := Removed(s, k, o);
    RemovedIsWellFormed(s, k, o);
    QuietStepKeepsLive(links, s, s', k);
    hide AllFirm, LiveKept, WellFormed, FirmAt, DeletesSafe, Spared;
    forall a, x | FirmAt(links, s, a, x) ensures FirmAt(links, s', a, x) {
      RemovedFirmAt(links, s, k, o, a, x);
    }
    RunStepKeepsInv(links, s, s');
  }

  lemma RunEndKeepsInv(links: Links, s: State, k: RunId)
    requires Inv(links, s) && Enabled(links, s, RunEnd(k))
    ensures Inv(links, Next(links, s, RunEnd(k)))
  {
    var s' := Next(links, s, RunEnd(k));
    SameStoresSameForm(s, s');
    hide Promised, AllFirm, WellFormed, DeletesSafe;
    forall j, x | j in s'.runs ensures Promised(links, s, s.runs[j], x) <==> Promised(links, s', s.runs[j], x) {
      PromisedSame(links, s, s', s.runs[j], s.runs[j], x);
    }
    RunStepKeepsInv(links, s, s');
  }

  // ── whole runs ───────────────────────────────────────────────────────

  lemma StepKeepsInv(links: Links, s: State, a: Action)
    requires Inv(links, s) && Enabled(links, s, a) && Benign(links, s, a)
    ensures Inv(links, Next(links, s, a))
  {
    hide *;
    match a
    case Tick(secs) => TickKeepsInv(links, s, secs);
    case Create(id) => CreateKeepsInv(links, s, id);
    case ForkLink(source, id) => ForkLinkKeepsInv(links, s, source, id);
    case SnapshotRead(id, name) => SnapshotReadKeepsInv(links, s, id, name);
    case SnapshotWrite(id) => SnapshotWriteKeepsInv(links, s, id);
    case SnapshotAbandon(id) => SnapshotAbandonKeepsInv(links, s, id);
    case DeleteStart(d, ids) => DeleteStartKeepsInv(links, s, d, ids);
    case DeleteNext(d) => DeleteNextKeepsInv(links, s, d);
    case DeleteEnd(d) => DeleteEndKeepsInv(links, s, d);
    case WriteLoose(repo, objs, touched) => WriteLooseKeepsInv(links, s, repo, objs, touched);
    case WritePack(repo, objs) => WritePackKeepsInv(links, s, repo, objs);
    case Stage(u, repo, tip, base) => StageKeepsInv(links, s, u, repo, tip, base);
    case See(u, x) => SeeKeepsInv(links, s, u, x);
    case Advance(u, name) => AdvanceKeepsInv(links, s, u, name);
    case Drop(u) => DropKeepsInv(links, s, u);
    case DropRef(repo, name) => DropRefKeepsInv(links, s, repo, name);
    case RunStart(k, repo, cutoff, network) => RunStartKeepsInv(links, s, k, repo, cutoff, network);
    case RunListOne(k, o) => RunListOneKeepsInv(links, s, k, o);
    case RunListDone(k) => RunListDoneKeepsInv(links, s, k);
    case RunScanBegin(k, m) => RunScanBeginKeepsInv(links, s, k, m);
    case RunRead(k, m, n) => RunReadKeepsInv(links, s, k, m, n);
    case RunDelete(k, o) => RunDeleteKeepsInv(links, s, k, o);
    case RunEnd(k) => RunEndKeepsInv(links, s, k);
  }

  /** `acts` can be taken one after the other from `s`; `benign` also asks each to be benign. */
  ghost predicate Possible(links: Links, s: State, acts: seq<Action>, benign: bool)
    decreases |acts|
  {
    acts == [] ||
    (Enabled(links, s, acts[0]) && (benign ==> Benign(links, s, acts[0])) &&
     Possible(links, Next(links, s, acts[0]), acts[1..], benign))
  }

  ghost function After(links: Links, s: State, acts: seq<Action>): State
    requires Possible(links, s, acts, false)
    decreases |acts|
  {
    if acts == [] then s else After(links, Next(links, s, acts[0]), acts[1..])
  }

  lemma {:induction false} BenignIsPossible(links: Links, s: State, acts: seq<Action>)
    requires Possible(links, s, acts, true)
    ensures Possible(links, s, acts, false)
    decreases |acts|
  {
    if acts != [] {
      BenignIsPossible(links, Next(links, s, acts[0]), acts[1..]);
    }
  }

  const EMPTY := State(0, map[], map[], map[], map[], map[], map[], map[], map[])

  /**
   Collection safety over interleavings: from the empty server, whatever benign sequence of the steps of
   forks, deletes, writes, uploads, ref updates and any number of concurrent collection runs is taken,
   nothing that a ref, an upload or a fork in the making relies on is lost.
   */
  lemma NothingReliedOnIsLost(links: Links, acts: seq<Action>)
    requires Possible(links, EMPTY, acts, true)
    ensures Possible(links, EMPTY, acts, false) && Inv(links, After(links, EMPTY, acts)) && Sound(links, After(links, EMPTY, acts))
  {
    BenignIsPossible(links, EMPTY, acts);
    RunKeepsInv(links, EMPTY, acts);
    InvIsSound(links, After(links, EMPTY, acts));
  }

  /** In particular no ref ever points into a hole. */
  lemma NoRefPointsIntoAHole(links: Links, acts: seq<Action>)
    requires Possible(links, EMPTY, acts, true)
    ensures Possible(links, EMPTY, acts, false) && Healthy(links, After(links, EMPTY, acts))
  {
    hide Sound, Healthy;
    NothingReliedOnIsLost(links, acts);
    SoundIsHealthy(links, After(links, EMPTY, acts));
  }

  lemma {:induction false} RunKeepsInv(links: Links, s: State, acts: seq<Action>)
    requires Inv(links, s) && Possible(links, s, acts, true) && Possible(links, s, acts, false)
    ensures Inv(links, After(links, s, acts))
    decreases |acts|
  {
    if acts != [] {
      StepKeepsInv(links, s, acts[0]);
      RunKeepsInv(links, Next(links, s, acts[0]), acts[1..]);
    }
  }
}
