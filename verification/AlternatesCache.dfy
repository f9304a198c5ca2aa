/**
 The cache of fork parents. An entry remembers the modification time that was read before the
 alternates file was resolved; a lookup whose own reading matches is answered without resolving.
 */
module AlternatesCache {
  import opened Base
  import opened Ids
  import opened Text

  type Mtime = Option<nat>

  /** An alternates file: its modification time and its text. */
  datatype File = File(mtime: nat, text: string)

  datatype Entry = Entry(mtime: Mtime, source: Option<RepoId>)

  // ── resolving an alternates file ─────────────────────────────────────

  /** Components of a canonical path below the repositories directory, if it exists and lies there. */
  type Canonical = string -> Option<seq<string>>

  function Resolve(text: string, canon: Canonical): Option<RepoId> {
    var target := Trim(text);
    if target == "" then None
    else
      match canon(target)
      case None => None
      case Some(parts) =>
        if |parts| != 2 || parts[1] != "objects" || !EndsWith(parts[0], ".git") then None
        else
          var id := parts[0][..|parts[0]| - 4];
          if ValidRepoIdText(id) then Some(id) else None
  }

  /** What a fork writes into its alternates file resolves back to its source. */
  lemma ForkResolvesToItsSource(root: string, source: RepoId, canon: Canonical)
    requires root != "" && !IsSpace(root[0]) && ValidRepoIdText(source)
    requires canon(root + "/" + source + ".git/objects") == Some([source + ".git", "objects"])
    ensures Resolve(root + "/" + source + ".git/objects" + "\n", canon) == Some(source)
  {
    var path := root + "/" + source + ".git/objects";
    assert path[|path| - 1] == 's';
    TrimLine(path);
    var dir := source + ".git";
    assert dir[|dir| - 4..] == ".git" && dir[..|dir| - 4] == source;
  }

  /** Exactly what resolves: a path, spaces around it dropped, that canonically is `<id>.git/objects` under the root. */
  lemma ResolvesIff(text: string, canon: Canonical, id: RepoId)
    ensures Resolve(text, canon) == Some(id) <==>
            Trim(text) != "" && canon(Trim(text)) == Some([id + ".git", "objects"]) && ValidRepoIdText(id)
  {
    var dir := id + ".git";
    assert dir[|dir| - 4..] == ".git" && dir[..|dir| - 4] == id;
    if Resolve(text, canon).Some? {
      var parts := canon(Trim(text)).value;
      assert parts[0] == parts[0][..|parts[0]| - 4] + ".git";
      assert parts == [parts[0], parts[1]];
    }
  }

  // ── the cache run by one caller ──────────────────────────────────────

  type Files = map<RepoId, File>

  function MtimeOf(f: Option<File>): Mtime {
    if f.Some? then Some(f.value.mtime) else None
  }

  function SourceOf(f: Option<File>, canon: Canonical): Option<RepoId> {
    if f.Some? then Resolve(f.value.text, canon) else None
  }

  function FileOf(files: Files, id: RepoId): Option<File> {
    if id in files then Some(files[id]) else None
  }

  class Cache {
    var inner: map<RepoId, Entry>

    /** Every entry that a lookup would still accept holds the right answer. */
    ghost predicate Agrees(files: Files, canon: Canonical)
      reads this
    {
      forall id :: id in inner && inner[id].mtime == MtimeOf(FileOf(files, id)) ==>
        inner[id].source == SourceOf(FileOf(files, id), canon)
    }

    constructor ()
      ensures inner == map[]
    {
      inner := map[];
    }

    method Lookup(files: Files, canon: Canonical, id: RepoId) returns (source: Option<RepoId>)
      requires Agrees(files, canon)
      modifies this
      ensures Agrees(files, canon)
      ensures source == SourceOf(FileOf(files, id), canon)
      ensures inner == old(inner)[id := Entry(MtimeOf(FileOf(files, id)), source)]
    {
      var mtime := MtimeOf(FileOf(files, id));
      if id in inner && inner[id].mtime == mtime {
        return inner[id].source;
      }
      source := if id in files then Resolve(files[id].text, canon) else None;
      inner := inner[id := Entry(mtime, source)];
    }

    method Invalidate(id: RepoId)
      modifies this
      ensures inner == old(inner) - {id}
    {
      inner := inner - {id};
    }
  }

  // ── one repository, many lookups at once ─────────────────────────────

  datatype Stage =
    | Statted(mtime: Mtime)
    | Missed(mtime: Mtime)
    | Resolved(mtime: Mtime, source: Option<RepoId>)
    | Answered(source: Option<RepoId>)

  /** A lookup, and every source the file has had since the lookup read the modification time. */
  datatype Flight = Flight(stage: Stage, seen: set<Option<RepoId>>)

  datatype State = State(file: Option<File>, cached: Option<Entry>, flights: map<nat, Flight>, clock: nat)

  datatype Action =
    | Stat(l: nat)
    | Check(l: nat)
    | ResolveNow(l: nat)
    | Insert(l: nat)
    | Write(text: string)
    | Remove
    | Invalidation

  predicate Enabled(st: State, a: Action) {
    match a
    case Stat(l) => l !in st.flights
    case Check(l) => l in st.flights && st.flights[l].stage.Statted?
    case ResolveNow(l) => l in st.flights && st.flights[l].stage.Missed?
    case Insert(l) => l in st.flights && st.flights[l].stage.Resolved?
    case Write(_) => true
    case Remove => st.file.Some?
    case Invalidation => true
  }

  function Moved(st: State, l: nat, stage: Stage): map<nat, Flight>
    requires l in st.flights
  {
    st.flights[l := st.flights[l].(stage := stage)]
  }

  /** Lookups under way see the new content. */
  function Watching(flights: map<nat, Flight>, now: Option<RepoId>): map<nat, Flight> {
    map l | l in flights ::
      if flights[l].stage.Answered? then flights[l] else flights[l].(seen := flights[l].seen + {now})
  }

  /** Every write gets a time stamp of its own; a removal is followed by an invalidation as a step of its own. */
  function Next(canon: Canonical, st: State, a: Action): State
    requires Enabled(st, a)
  {
    match a
    case Stat(l) =>
      st.(flights := st.flights[l := Flight(Statted(MtimeOf(st.file)), {SourceOf(st.file, canon)})])
    case Check(l) =>
      var mtime := st.flights[l].stage.mtime;
      if st.cached.Some? && st.cached.value.mtime == mtime
      then st.(flights := Moved(st, l, Answered(st.cached.value.source)))
      else st.(flights := Moved(st, l, Missed(mtime)))
    case ResolveNow(l) =>
      st.(flights := Moved(st, l, Resolved(st.flights[l].stage.mtime, SourceOf(st.file, canon))))
    case Insert(l) =>
      var s := st.flights[l].stage;
      st.(cached := Some(Entry(s.mtime, s.source)), flights := Moved(st, l, Answered(s.source)))
    case Write(text) =>
      State(Some(File(st.clock, text)), st.cached, Watching(st.flights, Resolve(text, canon)), st.clock + 1)
    case Remove =>
      State(None, st.cached, Watching(st.flights, None), st.clock)
    case Invalidation =>
      st.(cached := None)
  }

  /** A lookup that found no file, then resolved one that had just appeared, and has not stored that yet. */
  predicate HoldsAbsentHit(f: Flight) {
    f.stage.Resolved? && f.stage.mtime.None? && f.stage.source.Some?
  }

  /** The same pair in the cache. */
  predicate CachedAbsentHit(st: State) {
    st.cached.Some? && st.cached.value.mtime.None? && st.cached.value.source.Some?
  }

  /** The file is removed while no source found for an absent file is cached or about to be. */
  predicate Benign(st: State, a: Action) {
    a.Remove? ==> !CachedAbsentHit(st) && forall l :: l in st.flights ==> !HoldsAbsentHit(st.flights[l])
  }

  ghost predicate Possible(canon: Canonical, st: State, run: seq<Action>)
    decreases |run|
  {
    run == [] || (Enabled(st, run[0]) && Benign(st, run[0]) && Possible(canon, Next(canon, st, run[0]), run[1..]))
  }

  function After(canon: Canonical, st: State, run: seq<Action>): State
    requires Possible(canon, st, run)
    decreases |run|
  {
    if run == [] then st else After(canon, Next(canon, st, run[0]), run[1..])
  }

  predicate Before(m: Mtime, clock: nat) {
    m.Some? ==> m.value < clock
  }

  /** A pair read by someone else is safe for a flight: if their time stamps match, it saw that source. */
  predicate SafeFor(f: Flight, mtime: Mtime, source: Option<RepoId>) {
    (f.stage.Statted? && f.stage.mtime == mtime) ==> source in f.seen
  }

  ghost predicate PairOk(canon: Canonical, st: State, mtime: Mtime, source: Option<RepoId>) {
    && Before(mtime, st.clock)
    && (mtime == MtimeOf(st.file) ==> source == SourceOf(st.file, canon))
    && forall l :: l in st.flights ==> SafeFor(st.flights[l], mtime, source)
  }

  ghost predicate FlightOk(canon: Canonical, st: State, f: Flight) {
    match f.stage
    case Statted(m) => Before(m, st.clock) && SourceOf(st.file, canon) in f.seen
    case Missed(m) => Before(m, st.clock) && SourceOf(st.file, canon) in f.seen
    case Resolved(m, s) => SourceOf(st.file, canon) in f.seen && s in f.seen && PairOk(canon, st, m, s)
    case Answered(s) => s in f.seen
  }

  ghost predicate Inv(canon: Canonical, st: State) {
    && Before(MtimeOf(st.file), st.clock)
    && (st.cached.Some? ==> PairOk(canon, st, st.cached.value.mtime, st.cached.value.source))
    && forall l :: l in st.flights ==> FlightOk(canon, st, st.flights[l])
  }

  lemma PairStaysOk(canon: Canonical, st: State, a: Action, mtime: Mtime, source: Option<RepoId>)
    requires Inv(canon, st) && Enabled(st, a) && PairOk(canon, st, mtime, source)
    requires a.Remove? ==> mtime.Some? || source.None?
    ensures PairOk(canon, Next(canon, st, a), mtime, source)
  {
    var st' := Next(canon, st, a);
    forall l | l in st'.flights ensures SafeFor(st'.flights[l], mtime, source) {
      assert l in st.flights ==> SafeFor(st.flights[l], mtime, source);
    }
  }

  lemma ResolvedPairIsOk(canon: Canonical, st: State, l: nat)
    requires Inv(canon, st) && Enabled(st, ResolveNow(l))
    ensures PairOk(canon, Next(canon, st, ResolveNow(l)), st.flights[l].stage.mtime, SourceOf(st.file, canon))
  {
    var st' := Next(canon, st, ResolveNow(l));
    forall k | k in st'.flights ensures SafeFor(st'.flights[k], st.flights[l].stage.mtime, SourceOf(st.file, canon)) {
      assert FlightOk(canon, st, st.flights[k]);
    }
    assert FlightOk(canon, st, st.flights[l]);
  }

  lemma FlightStaysOk(canon: Canonical, st: State, a: Action, l: nat)
    requires Inv(canon, st) && Enabled(st, a) && Benign(st, a) && l in Next(canon, st, a).flights
    ensures FlightOk(canon, Next(canon, st, a), Next(canon, st, a).flights[l])
  {
    if l in st.flights {
      var f := st.flights[l];
      assert FlightOk(canon, st, f);
      if f.stage.Resolved? && a != Insert(l) {
        PairStaysOk(canon, st, a, f.stage.mtime, f.stage.source);
      } else if a == ResolveNow(l) {
        ResolvedPairIsOk(canon, st, l);
      }
    }
  }

  lemma StepKeepsInv(canon: Canonical, st: State, a: Action)
    requires Inv(canon, st) && Enabled(st, a) && Benign(st, a)
    ensures Inv(canon, Next(canon, st, a))
  {
    var st' := Next(canon, st, a);
    forall l | l in st'.flights ensures FlightOk(canon, st', st'.flights[l]) {
      FlightStaysOk(canon, st, a, l);
    }
    if a.Insert? {
      var s := st.flights[a.l].stage;
      assert FlightOk(canon, st, st.flights[a.l]);
      PairStaysOk(canon, st, a, s.mtime, s.source);
    } else if st.cached.Some? && !a.Invalidation? {
      PairStaysOk(canon, st, a, st.cached.value.mtime, st.cached.value.source);
    }
  }

  lemma {:induction false} RunKeepsInv(canon: Canonical, st: State, run: seq<Action>)
    requires Inv(canon, st) && Possible(canon, st, run)
    ensures Inv(canon, After(canon, st, run))
    decreases |run|
  {
    if run != [] {
      StepKeepsInv(canon, st, run[0]);
      RunKeepsInv(canon, Next(canon, st, run[0]), run[1..]);
    }
  }

  /**
   In every run from an empty cache, whatever is written between the reading of a time stamp and the
   resolving, every lookup answers with a source the file really had while the lookup was under way.
   */
  lemma EveryAnswerWasTrue(canon: Canonical, file: Option<File>, clock: nat, run: seq<Action>, l: nat)
    requires Before(MtimeOf(file), clock)
    requires Possible(canon, State(file, None, map[], clock), run)
    requires l in After(canon, State(file, None, map[], clock), run).flights
    ensures var f := After(canon, State(file, None, map[], clock), run).flights[l];
            f.stage.Answered? ==> f.stage.source in f.seen
  {
    RunKeepsInv(canon, State(file, None, map[], clock), run);
  }

  /** A lookup that nothing interrupts returns what direct resolution returns. */
  lemma QuietLookupIsExact(canon: Canonical, st: State, l: nat)
    requires Inv(canon, st) && l !in st.flights
    ensures var st1 := Next(canon, st, Stat(l));
            var st2 := Next(canon, st1, Check(l));
            || st2.flights[l].stage == Answered(SourceOf(st.file, canon))
            || (st2.flights[l].stage.Missed? &&
                Next(canon, Next(canon, st2, ResolveNow(l)), Insert(l)).flights[l].stage == Answered(SourceOf(st.file, canon)))
  {
  }

  /** Such a hit arises when a fork writes its file while a lookup that found none is resolving. */
  lemma AbsentHitIsReachable(canon: Canonical, text: string, source: RepoId)
    requires Resolve(text, canon) == Some(source)
    ensures var st := State(None, None, map[], 0);
            var run := [Stat(0), Check(0), Write(text), ResolveNow(0)];
            && Possible(canon, st, run)
            && 0 in After(canon, st, run).flights
            && HoldsAbsentHit(After(canon, st, run).flights[0]) && After(canon, st, run).file.Some?
  {
    var st := State(None, None, map[], 0);
    var r3, r2, r1 := [ResolveNow(0)], [Write(text), ResolveNow(0)], [Check(0), Write(text), ResolveNow(0)];
    var run := [Stat(0), Check(0), Write(text), ResolveNow(0)];
    assert run[1..] == r1 && r1[1..] == r2 && r2[1..] == r3 && r3[1..] == [];
    var st1 := Next(canon, st, Stat(0));
    var st2 := Next(canon, st1, Check(0));
    var st3 := Next(canon, st2, Write(text));
    var st4 := Next(canon, st3, ResolveNow(0));
    assert Possible(canon, st4, []) && After(canon, st4, []) == st4;
    assert Possible(canon, st3, r3) && After(canon, st3, r3) == st4;
    assert Possible(canon, st2, r2) && After(canon, st2, r2) == st4;
    assert Possible(canon, st1, r1) && After(canon, st1, r1) == st4;
    assert Possible(canon, st, run) && After(canon, st, run) == st4;
  }

  /**
   The condition on removals is exact: while there is a file, its removal keeps the invariant if and only
   if no source found for an absent file is cached or about to be.
   */
  lemma RemovalKeepsInvIff(canon: Canonical, st: State)
    requires Inv(canon, st) && st.file.Some?
    ensures Inv(canon, Next(canon, st, Remove)) <==> Benign(st, Remove)
  {
    var st' := Next(canon, st, Remove);
    if Benign(st, Remove) {
      StepKeepsInv(canon, st, Remove);
    } else if l :| l in st.flights && HoldsAbsentHit(st.flights[l]) {
      assert !FlightOk(canon, st', st'.flights[l]);
    }
  }

  /**
   What breaks without it. If a lookup in flight holds such a pair when the file is removed,
   its insertion after the invalidation makes the next lookup report a source for a file that is gone.
   */
  lemma StaleInsertAfterInvalidate(canon: Canonical, st: State, l: nat, k: nat)
    requires Inv(canon, st) && st.file.Some? && l in st.flights && HoldsAbsentHit(st.flights[l]) && k !in st.flights
    ensures var st1 := Next(canon, Next(canon, st, Remove), Invalidation);
            && Enabled(st1, Insert(l))
            && ReportsAGhost(canon, Next(canon, st1, Insert(l)), k)
  {
  }

  /** If the pair is in the cache already, every lookup between the removal and the invalidation does. */
  lemma StaleEntryBeforeInvalidate(canon: Canonical, st: State, k: nat)
    requires Inv(canon, st) && st.file.Some? && CachedAbsentHit(st) && k !in st.flights
    ensures ReportsAGhost(canon, Next(canon, st, Remove), k)
  {
  }

  /** A new lookup is answered with a source although there is no file while it is under way. */
  ghost predicate ReportsAGhost(canon: Canonical, st: State, k: nat)
    requires k !in st.flights
  {
    && st.file.None?
    && var f := Next(canon, Next(canon, st, Stat(k)), Check(k)).flights[k];
    f.seen == {None} && f.stage.Answered? && f.stage.source.Some?
  }
}
