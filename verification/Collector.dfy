/**
 Garbage collection over a fork network as a state machine. Every step of a collection run (the
 network, one listing entry, one ref read, one guarded delete) may be interleaved with forks, whose
 link, ref reads and ref write are steps of their own, with repo deletes, whose check and removals are
 apart, with object writes, staged uploads, ref updates and the steps of any number of other runs.
 */
module Collector {
  import opened Base
  import opened Reachability
  import opened ForkRelation
  import opened Cascade

  type Links = Oid -> set<Oid>

  type UploadId = nat

  type RunId = nat

  type DeleteId = nat

  type RefMap = map<RefName, Oid>

  /**
   A writer on its way from its objects to its ref update: a push in or past the connectivity walk, a
   REST commit, or a merge. It wants to move a ref to `tip`; `carried` is what it has seen in the repo so
   far, and `base` the value its ref update expects.
   */
  datatype Upload = Upload(repo: RepoId, tip: Oid, base: Option<Oid>, carried: set<Oid>)

  /**
   A collection run in flight. `live` is what the network's refs reached when the run began; `listed`
   holds the listing entries the delete loop has yet to remove, each with the creation time read at
   listing, and is `closed` once the listing is over; `toRead` holds, for each member whose scan has
   begun, the refs it has yet to read; `reach` is what the refs read so far reached.
   */
  datatype Run = Run(repo: RepoId, cutoff: int, network: set<RepoId>, live: iset<Oid>,
                     listed: map<Oid, int>, closed: bool, toRead: map<RepoId, set<RefName>>, reach: iset<Oid>)

  /**
   Repos with their alternates source, loose objects by creation time, packed objects and refs. `snaps`
   holds the refs a fork has read from its source and not yet written, `deletes` the repos that a
   delete request has checked and not yet removed, next one first.
   */
  datatype State = State(now: int, src: Sources, loose: map<RepoId, map<Oid, int>>,
                         packed: map<RepoId, set<Oid>>, refs: map<RepoId, RefMap>, snaps: map<RepoId, RefMap>,
                         uploads: map<UploadId, Upload>, deletes: map<DeleteId, seq<RepoId>>, runs: map<RunId, Run>)

  datatype Action =
    | Tick(secs: nat)
    | Create(id: RepoId)
    | ForkLink(source: RepoId, id: RepoId)
    | SnapshotRead(id: RepoId, name: RefName)
    | SnapshotWrite(id: RepoId)
    | SnapshotAbandon(id: RepoId)
    | DeleteStart(d: DeleteId, ids: seq<RepoId>)
    | DeleteNext(d: DeleteId)
    | DeleteEnd(d: DeleteId)
    | WriteLoose(repo: RepoId, objs: set<Oid>, touched: set<Oid>)
    | WritePack(repo: RepoId, objs: set<Oid>)
    | Stage(u: UploadId, repo: RepoId, tip: Oid, base: Option<Oid>)
    | See(u: UploadId, oid: Oid)
    | Advance(u: UploadId, name: RefName)
    | Drop(u: UploadId)
    | DropRef(repo: RepoId, name: RefName)
    | RunStart(run: RunId, repo: RepoId, cutoff: int, network: set<RepoId>)
    | RunListOne(run: RunId, oid: Oid)
    | RunListDone(run: RunId)
    | RunScanBegin(run: RunId, member: RepoId)
    | RunRead(run: RunId, member: RepoId, name: RefName)
    | RunDelete(run: RunId, oid: Oid)
    | RunEnd(run: RunId)

  const NO_OBJECTS: iset<Oid> := iset{}

  ghost predicate WellFormed(s: State) {
    && s.loose.Keys == s.packed.Keys == s.refs.Keys == s.src.Keys
    && (forall r :: r in s.src && s.src[r].Some? ==> s.src[r].value in s.src)
    && (forall r, x :: r in s.loose && x in s.loose[r] ==> s.loose[r][x] <= s.now)
  }

  /** `x` can be read in `r`: some repo of its alternates chain stores it. */
  ghost predicate Resolvable(s: State, r: RepoId, x: Oid) {
    exists a :: InChain(s.src, r, a) && StoredAt(s, a, x)
  }

  ghost predicate StoredAt(s: State, a: RepoId, x: Oid) {
    a in s.loose && a in s.packed && (x in s.packed[a] || x in s.loose[a])
  }

  ghost predicate RefReaches(links: Links, refs: RefMap, name: RefName, x: Oid) {
    name in refs && Reaches(links, refs[name], x)
  }

  ghost predicate SomeRefReaches(links: Links, refs: RefMap, x: Oid) {
    exists name :: RefReaches(links, refs, name, x)
  }

  /** The refs of `m` reach `x`. */
  ghost predicate RefsReach(links: Links, s: State, m: RepoId, x: Oid) {
    m in s.refs && SomeRefReaches(links, s.refs[m], x)
  }

  ghost predicate NetworkReaches(links: Links, s: State, network: set<RepoId>, x: Oid) {
    exists m :: m in network && RefsReach(links, s, m, x)
  }

  /** No ref points into a hole: the whole closure of every ref can be read in its repo. */
  ghost predicate Healthy(links: Links, s: State) {
    forall r, x :: RefsReach(links, s, r, x) ==> Resolvable(s, r, x)
  }

  // ── the steps ────────────────────────────────────────────────────────

  ghost predicate ScanOver(r: Run) {
    forall m :: m in r.network ==> m in r.toRead && r.toRead[m] == {}
  }

  /** What the delete loop removes: listed at or below the cutoff and reached by no ref it read. */
  ghost predicate Doomed(r: Run, o: Oid) {
    o in r.listed && r.listed[o] <= r.cutoff && o !in r.reach
  }

  /** The walk is over: the whole closure of the tip was seen, or belongs to the value that is replaced. */
  ghost predicate Checked(links: Links, up: Upload) {
    forall x :: Reaches(links, up.tip, x) ==> x in up.carried || (up.base.Some? && Reaches(links, up.base.value, x))
  }

  ghost predicate Enabled(links: Links, s: State, a: Action) {
    match a
    case Tick(_) => true
    case Create(id) => id !in s.src
    case ForkLink(_, id) => id !in s.src
    case SnapshotRead(id, name) =>
      id in s.src && s.src[id].Some? && s.src[id].value in s.refs && name in s.refs[s.src[id].value]
    case SnapshotWrite(id) => id in s.snaps && id in s.refs
    case SnapshotAbandon(id) => id in s.snaps
    case DeleteStart(d, _) => d !in s.deletes
    case DeleteNext(d) => d in s.deletes && s.deletes[d] != [] && s.deletes[d][0] in s.src
    case DeleteEnd(d) => d in s.deletes
    case WriteLoose(repo, objs, touched) => repo in s.loose && touched <= s.loose[repo].Keys
    case WritePack(repo, _) => repo in s.packed
    case Stage(u, repo, _, _) => u !in s.uploads && repo in s.src
    case See(u, x) => u in s.uploads && (Resolvable(s, s.uploads[u].repo, x) || RefsReach(links, s, s.uploads[u].repo, x))
    case Advance(u, name) =>
      && u in s.uploads && s.uploads[u].repo in s.refs && Checked(links, s.uploads[u])
      && var refs := s.refs[s.uploads[u].repo];
      s.uploads[u].base.Some? ==> name in refs && refs[name] == s.uploads[u].base.value
    case Drop(u) => u in s.uploads
    case DropRef(repo, name) => repo in s.refs && name in s.refs[repo]
    case RunStart(k, repo, _, network) => k !in s.runs && repo in network
    case RunListOne(k, o) =>
      && k in s.runs && !s.runs[k].closed && s.runs[k].cutoff <= s.now && o !in s.runs[k].listed
      && s.runs[k].repo in s.loose && o in s.loose[s.runs[k].repo]
    case RunListDone(k) => k in s.runs && !s.runs[k].closed && s.runs[k].cutoff <= s.now
    case RunScanBegin(k, m) =>
      k in s.runs && s.runs[k].closed && m in s.runs[k].network && m !in s.runs[k].toRead && m in s.refs
    case RunRead(k, m, n) =>
      k in s.runs && m in s.runs[k].network && m in s.runs[k].toRead && n in s.runs[k].toRead[m]
    case RunDelete(k, o) => k in s.runs && s.runs[k].closed && ScanOver(s.runs[k]) && Doomed(s.runs[k], o)
    case RunEnd(k) => k in s.runs
  }

  ghost function Next(links: Links, s: State, a: Action): State
    requires Enabled(links, s, a)
  {
    match a
    case Tick(secs) => s.(now := s.now + secs)
    case Create(id) => AddRepo(s, id, None)
    case ForkLink(source, id) => AddRepo(s, id, Some(source))
    case SnapshotRead(id, name) =>
      s.(snaps := s.snaps[id := Snapshot(s, id)[name := s.refs[s.src[id].value][name]]])
    case SnapshotWrite(id) => s.(refs := s.refs[id := s.snaps[id] + s.refs[id]], snaps := s.snaps - {id})
    case SnapshotAbandon(id) => s.(snaps := s.snaps - {id})
    case DeleteStart(d, ids) => s.(deletes := s.deletes[d := ids])
    case DeleteNext(d) => RemoveRepo(s, s.deletes[d][0]).(deletes := s.deletes[d := s.deletes[d][1..]])
    case DeleteEnd(d) => s.(deletes := s.deletes - {d})
    case WriteLoose(repo, objs, touched) => s.(loose := s.loose[repo := Stamped(s.loose[repo], objs, touched, s.now)])
    case WritePack(repo, objs) => s.(packed := s.packed[repo := s.packed[repo] + objs])
    case Stage(u, repo, tip, base) => s.(uploads := s.uploads[u := Upload(repo, tip, base, {})])
    case See(u, x) => s.(uploads := s.uploads[u := s.uploads[u].(carried := s.uploads[u].carried + {x})])
    case Advance(u, name) =>
      var repo := s.uploads[u].repo;
      s.(refs := s.refs[repo := s.refs[repo][name := s.uploads[u].tip]])
    case Drop(u) => s.(uploads := s.uploads - {u})
    case DropRef(repo, name) => s.(refs := s.refs[repo := s.refs[repo] - {name}])
    case RunStart(k, repo, cutoff, network) => s.(runs := s.runs[k := NewRun(links, s, repo, cutoff, network)])
    case RunListOne(k, o) =>
      var r := s.runs[k];
      s.(runs := s.runs[k := r.(listed := r.listed[o := s.loose[r.repo][o]])])
    case RunListDone(k) => s.(runs := s.runs[k := s.runs[k].(closed := true)])
    case RunScanBegin(k, m) =>
      var r := s.runs[k];
      s.(runs := s.runs[k := r.(toRead := r.toRead[m := s.refs[m].Keys])])
    case RunRead(k, m, n) =>
      var r := s.runs[k];
      s.(runs := s.runs[k := r.(toRead := r.toRead[m := r.toRead[m] - {n}], reach := r.reach + Closure(links, s, m, n))])
    case RunDelete(k, o) => Removed(s, k, o)
    case RunEnd(k) => s.(runs := s.runs - {k})
  }

  ghost function AddRepo(s: State, id: RepoId, source: Option<RepoId>): State {
    s.(src := s.src[id := source], loose := s.loose[id := map[]], packed := s.packed[id := {}], refs := s.refs[id := map[]])
  }

  ghost function RemoveRepo(s: State, id: RepoId): State {
    s.(src := s.src - {id}, loose := s.loose - {id}, packed := s.packed - {id}, refs := s.refs - {id})
  }

  /** New objects and touched ones get the current time; an object written again keeps its stamp. */
  ghost function Stamped(store: map<Oid, int>, objs: set<Oid>, touched: set<Oid>, now: int): map<Oid, int> {
    store + map o | o in (objs - store.Keys) + touched :: now
  }

  /** What a fork has read of its source so far. */
  ghost function Snapshot(s: State, id: RepoId): RefMap {
    if id in s.snaps then s.snaps[id] else map[]
  }

  /** The walk over the network may have taken any time; `network` is what it returned. */
  ghost function NewRun(links: Links, s: State, repo: RepoId, cutoff: int, network: set<RepoId>): Run {
    Run(repo, cutoff, network, iset x | NetworkReaches(links, s, network, x), map[], false, map[], NO_OBJECTS)
  }

  /** The delete loop of run `k` goes past `o`; the repo may be gone by then. */
  ghost function Removed(s: State, k: RunId, o: Oid): State
    requires k in s.runs
  {
    s.(runs := s.runs[k := s.runs[k].(listed := s.runs[k].listed - {o})], loose := Without(s.loose, s.runs[k].repo, o))
  }

  ghost function Without(loose: map<RepoId, map<Oid, int>>, repo: RepoId, o: Oid): map<RepoId, map<Oid, int>> {
    if repo in loose then loose[repo := loose[repo] - {o}] else loose
  }

  /** What one ref of `m` reaches; nothing if the ref is gone by the time it is read. */
  ghost function Closure(links: Links, s: State, m: RepoId, n: RefName): iset<Oid> {
    iset x | m in s.refs && RefReaches(links, s.refs[m], n, x)
  }

  // ── what a run must not be raced with ────────────────────────────────

  /** The run will leave its repo's loose copy of `x` alone on account of its age. */
  ghost predicate Young(s: State, r: Run, x: Oid) {
    if x in r.listed then r.listed[x] > r.cutoff
    else r.closed || (r.repo in s.loose && x in s.loose[r.repo] && s.loose[r.repo][x] > r.cutoff)
  }

  ghost predicate Unscanned(r: Run, m: RepoId) {
    m in r.network && m !in r.toRead
  }

  /** The run has still to read this ref, if it finds it. */
  ghost predicate ToBeRead(r: Run, m: RepoId, n: RefName) {
    Unscanned(r, m) || (m in r.network && m in r.toRead && n in r.toRead[m])
  }

  ghost predicate AwaitsScan(s: State, m: RepoId) {
    exists k :: k in s.runs && Unscanned(s.runs[k], m)
  }

  ghost predicate AwaitsRead(s: State, m: RepoId, n: RefName) {
    exists k :: k in s.runs && ToBeRead(s.runs[k], m, n)
  }

  /** Some run has begun to read the refs of `m` and is not done. */
  ghost predicate InScan(s: State, m: RepoId) {
    exists k :: k in s.runs && m in s.runs[k].toRead && s.runs[k].toRead[m] != {}
  }

  /** `r` reads `x` from a pack, from a repo no run collects, or from a loose copy live or young for every run. */
  ghost predicate SafeCopy(s: State, r: RepoId, x: Oid) {
    exists a :: InChain(s.src, r, a) && SafeAt(s, a, x)
  }

  ghost predicate SafeAt(s: State, a: RepoId, x: Oid) {
    && a in s.loose && a in s.packed
    && (x in s.packed[a] ||
        (x in s.loose[a] && forall k :: k in s.runs && s.runs[k].repo == a ==> x in s.runs[k].live || Young(s, s.runs[k], x)))
  }

  /** Something depends on `r` being able to read `x`: a ref, a staged upload, or refs about to be written to a fork. */
  ghost predicate Relied(links: Links, s: State, r: RepoId, x: Oid) {
    r in s.src && (RefsReach(links, s, r, x) || Carried(s, r, x) || SomeRefReaches(links, Snapshot(s, r), x))
  }

  /** Nothing that anything depends on has been lost. */
  ghost predicate Sound(links: Links, s: State) {
    forall r, x :: Relied(links, s, r, x) ==> Resolvable(s, r, x)
  }

  /** A ref of `r` or of a repo in its alternates chain reaches `x`. */
  ghost predicate ChainReaches(links: Links, s: State, r: RepoId, x: Oid) {
    exists a :: InChain(s.src, r, a) && RefsReach(links, s, a, x)
  }

  ghost predicate Carried(s: State, r: RepoId, x: Oid) {
    exists u :: u in s.uploads && s.uploads[u].repo == r && x in s.uploads[u].carried
  }

  /** Run `k` leaves the copy of `x` in its own repo alone. */
  ghost predicate Outlasts(s: State, k: RunId, x: Oid)
    requires k in s.runs
  {
    var r := s.runs[k];
    x in r.live || Young(s, r, x) || (r.repo in s.packed && x in s.packed[r.repo])
  }

  ghost predicate Unused(s: State, id: RepoId) {
    && !AwaitsScan(s, id) && id !in s.snaps
    && forall u :: u in s.uploads ==> s.uploads[u].repo != id
  }

  /**
   The restriction on the environment. Outside of runs it says that an id is not reused while an upload
   or a ref write to its previous holder is in flight, that a delete request removes forks before their
   source, and that a repo is not forked once a delete request has checked it. During a run: refs still
   to be read are only added or fast-forwarded, ids of members still to be scanned are not reused, a
   member is not removed while it is being scanned, and what an upload finds in its repo is reached by a
   ref of that repo or of its sources, was live when the run started, is young, or has a copy outside the collected loose
   store. When a run starts, the same holds for whatever uploads, forks in the making and repos missed by
   its network rely on.
   */
  ghost predicate Benign(links: Links, s: State, a: Action)
    requires Enabled(links, s, a)
  {
    match a
    case Create(id) => Unused(s, id)
    case ForkLink(source, id) => Unused(s, id) && source in s.src && forall d :: d in s.deletes ==> source !in s.deletes[d]
    case DeleteStart(_, ids) => SafeDeletion(s.src, ids)
    case DeleteNext(d) => !InScan(s, s.deletes[d][0])
    case See(u, x) => SafeCopy(s, s.uploads[u].repo, x) || ChainReaches(links, s, s.uploads[u].repo, x)
    case Advance(u, name) =>
      var repo := s.uploads[u].repo;
      AwaitsRead(s, repo, name) && name in s.refs[repo] ==> Reaches(links, s.uploads[u].tip, s.refs[repo][name])
    case DropRef(repo, name) => !AwaitsRead(s, repo, name)
    case RunStart(k, repo, _, _) =>
      var s' := Next(links, s, a);
      forall r, x :: Relied(links, s, r, x) && InChain(s.src, r, repo) ==> Outlasts(s', k, x) || SafeCopy(s', r, x)
    case _ => true
  }

  // ── the invariant ────────────────────────────────────────────────────

  /**
   A ref the run has still to read reaches `x`, or the ref belongs to a member that is gone and whose
   scan will abort the run.
   */
  ghost predicate CoveredBy(links: Links, s: State, r: Run, m: RepoId, n: RefName, x: Oid) {
    ToBeRead(r, m, n) && if m in s.refs then RefReaches(links, s.refs[m], n, x) else Unscanned(r, m)
  }

  ghost predicate Covered(links: Links, s: State, r: Run, x: Oid) {
    exists m, n :: CoveredBy(links, s, r, m, n, x)
  }

  /** The run has reported `x` or still will. */
  ghost predicate Promised(links: Links, s: State, r: Run, x: Oid) {
    x in r.reach || Covered(links, s, r, x)
  }

  /** The run will not take its repo's loose copy of `x`. */
  ghost predicate Spared(links: Links, s: State, r: Run, x: Oid) {
    Young(s, r, x) || Promised(links, s, r, x)
  }

  /** No run can take the copy of `x` at `a`. */
  ghost predicate FirmAt(links: Links, s: State, a: RepoId, x: Oid) {
    && a in s.loose && a in s.packed
    && (x in s.packed[a] ||
        (x in s.loose[a] && forall k :: k in s.runs && s.runs[k].repo == a ==> Spared(links, s, s.runs[k], x)))
  }

  ghost predicate Firm(links: Links, s: State, r: RepoId, x: Oid) {
    exists a :: InChain(s.src, r, a) && FirmAt(links, s, a, x)
  }

  ghost predicate RefsFirm(links: Links, s: State) {
    forall r, x :: RefsReach(links, s, r, x) ==> Firm(links, s, r, x)
  }

  /** Whatever anything relies on has a copy that no run can take. */
  ghost predicate AllFirm(links: Links, s: State) {
    forall r, x :: Relied(links, s, r, x) ==> Firm(links, s, r, x)
  }

  /** What was live when a run started is reported by it, now or later. */
  ghost predicate LiveKept(links: Links, s: State) {
    forall k, x :: k in s.runs && x in s.runs[k].live ==> Promised(links, s, s.runs[k], x)
  }

  ghost predicate DeletesSafe(s: State) {
    forall d :: d in s.deletes ==> SafeDeletion(s.src, s.deletes[d])
  }

  ghost predicate Inv(links: Links, s: State) {
    WellFormed(s) && AllFirm(links, s) && LiveKept(links, s) && DeletesSafe(s)
  }

  lemma FirmIsResolvable(links: Links, s: State, r: RepoId, x: Oid)
    requires Firm(links, s, r, x)
    ensures Resolvable(s, r, x)
  {
    var a :| InChain(s.src, r, a) && FirmAt(links, s, a, x);
    assert StoredAt(s, a, x);
  }

  lemma InvIsSound(links: Links, s: State)
    requires Inv(links, s)
    ensures Sound(links, s)
  {
    forall r, x | Relied(links, s, r, x) ensures Resolvable(s, r, x) {
      FirmIsResolvable(links, s, r, x);
    }
  }

  lemma SoundIsHealthy(links: Links, s: State)
    requires WellFormed(s) && Sound(links, s)
    ensures Healthy(links, s)
  {
    forall r, x | RefsReach(links, s, r, x) ensures Resolvable(s, r, x) {
      assert Relied(links, s, r, x);
    }
  }

  lemma SafeCopyIsFirm(links: Links, s: State, r: RepoId, x: Oid)
    requires LiveKept(links, s) && SafeCopy(s, r, x)
    ensures Firm(links, s, r, x)
  {
    var a :| InChain(s.src, r, a) && SafeAt(s, a, x);
    assert FirmAt(links, s, a, x);
  }

  // ── chains under changes of the repo set ─────────────────────────────

  lemma {:induction false} ChainsKeptByAdd(src: Sources, id: RepoId, source: Option<RepoId>, r: RepoId, a: RepoId, n: nat)
    requires id !in src && r in src && Uses(src, r, a, n)
    requires forall q :: q in src && src[q].Some? ==> src[q].value in src
    ensures Uses(src[id := source], r, a, n)
    decreases n
  {
    if n > 0 {
      ChainsKeptByAdd(src, id, source, src[r].value, a, n - 1);
    }
  }

  lemma {:induction false} ChainsKeptByDelete(src: Sources, id: RepoId, r: RepoId, a: RepoId, n: nat)
    requires r != id && Uses(src, r, a, n)
    requires forall q :: q in src && q != id ==> src[q] != Some(id)
    ensures a != id && Uses(src - {id}, r, a, n)
    decreases n
  {
    if n > 0 {
      ChainsKeptByDelete(src, id, src[r].value, a, n - 1);
    }
  }
}
