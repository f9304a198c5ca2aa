/**
 Concurrent REST commits and branch merges. Every request is a process of several separate steps
 (read refs, build objects, compare-and-swap), and the steps of different requests interleave freely.
 The commit graph is immutable: the parents of a commit are a function of its id.
 */
module BranchWriters {
  import opened Base
  import opened Reachability
  import opened RefStore

  type Parents = Oid -> set<Oid>

  /** `a` is an ancestor of `b`, or `b` itself. */
  ghost predicate Ancestor(parents: Parents, a: Oid, b: Oid) {
    Reaches(parents, b, a)
  }

  // ── the merge decision ───────────────────────────────────────────────

  datatype Strategy = Auto | FfOnly | Merge

  datatype Plan = AlreadyMerged | FastForward | NotFastForward | MissingTarget | ThreeWay

  function PlanMerge(strategy: Strategy, target: Option<Oid>, sourceInTarget: bool, targetInSource: bool): (plan: Plan)
    // The three-way path finds no target exactly for a forced merge onto an absent branch.
    ensures plan == MissingTarget <==> strategy == Merge && target.None?
    ensures plan == ThreeWay <==>
            target.Some? && !sourceInTarget && strategy != FfOnly && (targetInSource ==> strategy == Merge)
    ensures plan == NotFastForward <==> strategy == FfOnly && target.Some? && !sourceInTarget && !targetInSource
    ensures plan == AlreadyMerged <==> target.Some? && sourceInTarget
    ensures plan == FastForward <==> strategy != Merge && (target.Some? ==> targetInSource && !sourceInTarget)
  {
    if target.Some? && sourceInTarget then AlreadyMerged
    else
      var ffAvailable := target.None? || targetInSource;
      if ffAvailable && strategy != Merge then FastForward
      else if strategy == FfOnly then NotFastForward
      else if target.None? then MissingTarget
      else ThreeWay
  }

  // ── requests in flight ───────────────────────────────────────────────

  datatype Reply =
    | Success(branch: Key, commit: Oid, basis: set<Oid>)
    | Refused

  /** Where a request stands. `basis` collects the commits that its result has to contain. */
  datatype Job =
    | CommitBegun(branch: Key, parent: Option<Oid>)
    | MergeBegun(source: Key, target: Key, strategy: Strategy)
    | SourceRead(source: Key, target: Key, strategy: Strategy, s: Oid)
    | TargetRead(source: Key, target: Key, strategy: Strategy, s: Oid, t: Option<Oid>)
    | Ready(branch: Key, expected: Option<Oid>, value: Oid, basis: set<Oid>)
    | Finished(reply: Reply)

  datatype State = State(store: Backend, refs: Refs, jobs: map<nat, Job>)

  datatype Action =
    | SubmitCommit(job: nat, branch: Key, parent: Option<Oid>)
    | BuildCommit(job: nat, commit: Oid)
    | SubmitMerge(job: nat, source: Key, target: Key, strategy: Strategy)
    | ReadSource(job: nat)
    | ReadTarget(job: nat)
    | Decide(job: nat, commit: Oid)
    | Swap(job: nat)
    | Fail(job: nat)
    | Push(change: Cas)

  function Members(o: Option<Oid>): set<Oid> {
    if o.Some? then {o.value} else {}
  }

  ghost function PlanOf(parents: Parents, j: Job): Plan
    requires j.TargetRead?
  {
    PlanMerge(j.strategy, j.t, j.t.Some? && Ancestor(parents, j.s, j.t.value), j.t.Some? && Ancestor(parents, j.t.value, j.s))
  }

  /** A commit object built by a request has exactly the parents that request gave it. */
  ghost predicate Enabled(parents: Parents, st: State, a: Action) {
    match a
    case SubmitCommit(job, _, _) => job !in st.jobs
    case SubmitMerge(job, source, target, _) => job !in st.jobs && source != target
    case BuildCommit(job, commit) =>
      job in st.jobs && st.jobs[job].CommitBegun? && parents(commit) == Members(st.jobs[job].parent)
    case ReadSource(job) => job in st.jobs && st.jobs[job].MergeBegun?
    case ReadTarget(job) => job in st.jobs && st.jobs[job].SourceRead?
    case Decide(job, commit) =>
      && job in st.jobs && st.jobs[job].TargetRead?
      && (PlanOf(parents, st.jobs[job]) == ThreeWay ==> parents(commit) == {st.jobs[job].s, st.jobs[job].t.value})
    case Swap(job) => job in st.jobs && st.jobs[job].Ready?
    case Fail(job) => job in st.jobs && !st.jobs[job].Finished?
    case Push(_) => true
  }

  ghost function Decided(parents: Parents, j: Job, commit: Oid): Job
    requires j.TargetRead?
  {
    match PlanOf(parents, j)
    case AlreadyMerged => Finished(Success(j.target, j.t.value, {j.s, j.t.value}))
    case FastForward => Ready(j.target, j.t, j.s, {j.s} + Members(j.t))
    case ThreeWay => Ready(j.target, j.t, commit, {j.s, j.t.value})
    case NotFastForward => Finished(Refused)
    case MissingTarget => Finished(Refused)
  }

  /** Every job asks the store once, under its own number. */
  function SwapRequest(job: nat, j: Job): Cas
    requires j.Ready?
  {
    Update(j.branch, j.expected, j.value, job)
  }

  function Answered(store: Backend, refs: Refs, job: nat, j: Job): Job
    requires j.Ready?
  {
    Finished(if OutcomeOf(store, refs, SwapRequest(job, j)) == Updated then Success(j.branch, j.value, j.basis) else Refused)
  }

  /** What a step does to the request that takes it. */
  ghost function NextJob(parents: Parents, st: State, a: Action): Job
    requires Enabled(parents, st, a) && !a.Push?
  {
    match a
    case SubmitCommit(_, branch, parent) => CommitBegun(branch, parent)
    case SubmitMerge(_, source, target, strategy) => MergeBegun(source, target, strategy)
    case BuildCommit(job, commit) =>
      var j := st.jobs[job];
      Ready(j.branch, j.parent, commit, Members(j.parent))
    case ReadSource(job) =>
      var j := st.jobs[job];
      var s := Current(st.refs, j.source);
      if s.Some? then SourceRead(j.source, j.target, j.strategy, s.value) else Finished(Refused)
    case ReadTarget(job) =>
      var j := st.jobs[job];
      TargetRead(j.source, j.target, j.strategy, j.s, Current(st.refs, j.target))
    case Decide(job, commit) => Decided(parents, st.jobs[job], commit)
    case Swap(job) => Answered(st.store, st.refs, job, st.jobs[job])
    case Fail(_) => Finished(Refused)
  }

  ghost function Next(parents: Parents, st: State, a: Action): State
    requires Enabled(parents, st, a)
  {
    match a
    case Push(change) => st.(refs := Apply(st.store, st.refs, change))
    case Swap(job) =>
      st.(refs := Apply(st.store, st.refs, SwapRequest(job, st.jobs[job])), jobs := st.jobs[job := NextJob(parents, st, a)])
    case _ => st.(jobs := st.jobs[a.job := NextJob(parents, st, a)])
  }

  /** Pushes are arbitrary: they may force a branch anywhere or delete it. */
  ghost predicate Possible(parents: Parents, st: State, run: seq<Action>)
    decreases |run|
  {
    run == [] || (Enabled(parents, st, run[0]) && Possible(parents, Next(parents, st, run[0]), run[1..]))
  }

  ghost function After(parents: Parents, st: State, run: seq<Action>): State
    requires Possible(parents, st, run)
    decreases |run|
  {
    if run == [] then st else After(parents, Next(parents, st, run[0]), run[1..])
  }

  /** If the step is a push that takes effect, it creates a ref or moves it to a descendant. */
  ghost predicate Forward(parents: Parents, st: State, a: Action) {
    a.Push? && Applies(st.store, st.refs, a.change) && a.change.key in st.refs ==>
      a.change.Update? && Ancestor(parents, st.refs[a.change.key], a.change.value)
  }

  ghost predicate ForwardRun(parents: Parents, st: State, run: seq<Action>)
    requires Possible(parents, st, run)
    decreases |run|
  {
    run == [] || (Forward(parents, st, run[0]) && ForwardRun(parents, Next(parents, st, run[0]), run[1..]))
  }

  // ── the invariant ────────────────────────────────────────────────────

  ghost predicate AllAncestors(parents: Parents, basis: set<Oid>, c: Oid) {
    forall b :: b in basis ==> Ancestor(parents, b, c)
  }

  /** `c` is on the branch: the tip is `c` or descends from it. */
  ghost predicate On(parents: Parents, refs: Refs, branch: Key, c: Oid) {
    branch in refs && Ancestor(parents, c, refs[branch])
  }

  /** What a request knows of its result whatever becomes of the refs. */
  ghost predicate BasisOk(parents: Parents, j: Job) {
    match j
    case Ready(_, expected, value, basis) => Members(expected) <= basis && AllAncestors(parents, basis, value)
    case Finished(Success(_, commit, basis)) => AllAncestors(parents, basis, commit)
    case _ => true
  }

  /** What it knows of the refs as long as they only move forward. */
  ghost predicate JobOk(parents: Parents, refs: Refs, j: Job) {
    match j
    case SourceRead(source, _, _, s) => On(parents, refs, source, s)
    case TargetRead(source, target, _, s, t) =>
      On(parents, refs, source, s) && (t.Some? ==> On(parents, refs, target, t.value))
    case Finished(Success(branch, commit, basis)) => On(parents, refs, branch, commit)
    case _ => true
  }

  ghost predicate Sound(parents: Parents, st: State) {
    forall job :: job in st.jobs ==> BasisOk(parents, st.jobs[job])
  }

  ghost predicate Inv(parents: Parents, st: State) {
    Sound(parents, st) && forall job :: job in st.jobs ==> JobOk(parents, st.refs, st.jobs[job])
  }

  /** Every branch is still there and its new tip descends from the old one. */
  ghost predicate Advanced(parents: Parents, before: Refs, later: Refs) {
    forall branch :: branch in before ==> On(parents, later, branch, before[branch])
  }

  lemma AdvancedSelf(parents: Parents, refs: Refs)
    ensures Advanced(parents, refs, refs)
  {
    forall branch | branch in refs ensures On(parents, refs, branch, refs[branch]) {
      ReachesSelf(parents, refs[branch]);
    }
  }

  lemma StaysOn(parents: Parents, before: Refs, later: Refs, branch: Key, c: Oid)
    requires Advanced(parents, before, later) && On(parents, before, branch, c)
    ensures On(parents, later, branch, c)
  {
    ReachesTransitive(parents, later[branch], before[branch], c);
  }

  lemma AdvancedTransitive(parents: Parents, a: Refs, b: Refs, c: Refs)
    requires Advanced(parents, a, b) && Advanced(parents, b, c)
    ensures Advanced(parents, a, c)
  {
    forall branch | branch in a ensures On(parents, c, branch, a[branch]) {
      StaysOn(parents, b, c, branch, a[branch]);
    }
  }

  lemma JobStaysOk(parents: Parents, before: Refs, later: Refs, j: Job)
    requires Advanced(parents, before, later) && JobOk(parents, before, j)
    ensures JobOk(parents, later, j)
  {
    match j
    case SourceRead(source, _, _, s) => StaysOn(parents, before, later, source, s);
    case TargetRead(source, target, _, s, t) =>
      StaysOn(parents, before, later, source, s);
      if t.Some? {
        StaysOn(parents, before, later, target, t.value);
      }
    case Finished(Success(branch, commit, basis)) => StaysOn(parents, before, later, branch, commit);
    case _ =>
  }

  /** A request advances the refs exactly if it does not apply, finds no ref, or moves it to a descendant. */
  lemma AdvancesIff(parents: Parents, store: Backend, refs: Refs, c: Cas)
    ensures Advanced(parents, refs, Apply(store, refs, c)) <==>
            (Applies(store, refs, c) && c.key in refs ==> c.Update? && Ancestor(parents, refs[c.key], c.value))
  {
    var refs' := Apply(store, refs, c);
    if Applies(store, refs, c) && c.key in refs && Advanced(parents, refs, refs') {
      assert On(parents, refs', c.key, refs[c.key]);
    }
    forall branch | branch in refs && (branch == c.key && Applies(store, refs, c) ==> c.Update? && Ancestor(parents, refs[c.key], c.value))
      ensures On(parents, refs', branch, refs[branch])
    {
      ReachesSelf(parents, refs[branch]);
    }
  }

  /** In a sound state exactly the pushes decide whether a step only moves branches forward. */
  lemma StepAdvancesIff(parents: Parents, st: State, a: Action)
    requires Sound(parents, st) && Enabled(parents, st, a)
    ensures Advanced(parents, st.refs, Next(parents, st, a).refs) <==> Forward(parents, st, a)
  {
    if a.Push? {
      AdvancesIff(parents, st.store, st.refs, a.change);
    } else if a.Swap? {
      var j := st.jobs[a.job];
      assert BasisOk(parents, j);
      AdvancesIff(parents, st.store, st.refs, SwapRequest(a.job, j));
      assert j.expected.Some? ==> j.expected.value in Members(j.expected);
    } else {
      AdvancedSelf(parents, st.refs);
    }
  }

  lemma ParentsAreAncestors(parents: Parents, c: Oid)
    ensures AllAncestors(parents, parents(c), c)
  {
    forall p | p in parents(c) ensures Ancestor(parents, p, c) {
      ReachesLink(parents, c, p);
    }
  }

  /** Whatever the decision, the result contains both the source and the target as they were read. */
  lemma DecidedIsOk(parents: Parents, j: Job, commit: Oid)
    requires j.TargetRead? && (PlanOf(parents, j) == ThreeWay ==> parents(commit) == {j.s, j.t.value})
    ensures BasisOk(parents, Decided(parents, j, commit))
  {
    ReachesSelf(parents, j.s);
    if j.t.Some? {
      ReachesSelf(parents, j.t.value);
    }
    ParentsAreAncestors(parents, commit);
  }

  /** Soundness does not depend on what pushes do to the refs. */
  lemma StepKeepsSound(parents: Parents, st: State, a: Action)
    requires Sound(parents, st) && Enabled(parents, st, a)
    ensures Sound(parents, Next(parents, st, a))
  {
    match a
    case BuildCommit(_, commit) => ParentsAreAncestors(parents, commit);
    case Decide(job, commit) => DecidedIsOk(parents, st.jobs[job], commit);
    case Swap(job) => assert BasisOk(parents, st.jobs[job]);
    case _ =>
  }

  lemma NextJobOk(parents: Parents, st: State, a: Action)
    requires Inv(parents, st) && Enabled(parents, st, a) && !a.Push?
    ensures JobOk(parents, Next(parents, st, a).refs, NextJob(parents, st, a))
  {
    match a
    case ReadSource(job) => AdvancedSelf(parents, st.refs);
    case ReadTarget(job) =>
      assert JobOk(parents, st.refs, st.jobs[job]);
      AdvancedSelf(parents, st.refs);
    case Decide(job, commit) => assert JobOk(parents, st.refs, st.jobs[job]);
    case Swap(job) => ReachesSelf(parents, st.jobs[job].value);
    case _ =>
  }

  lemma StepKeepsInv(parents: Parents, st: State, a: Action)
    requires Inv(parents, st) && Enabled(parents, st, a) && Forward(parents, st, a)
    ensures Inv(parents, Next(parents, st, a))
  {
    var st' := Next(parents, st, a);
    StepAdvancesIff(parents, st, a);
    StepKeepsSound(parents, st, a);
    if !a.Push? {
      NextJobOk(parents, st, a);
    }
    forall job | job in st'.jobs && (a.Push? || job != a.job) ensures JobOk(parents, st'.refs, st'.jobs[job]) {
      JobStaysOk(parents, st.refs, st'.refs, st.jobs[job]);
    }
  }

  lemma {:induction false} RunKeepsInv(parents: Parents, st: State, run: seq<Action>)
    requires Inv(parents, st) && Possible(parents, st, run) && ForwardRun(parents, st, run)
    ensures Inv(parents, After(parents, st, run))
    ensures Advanced(parents, st.refs, After(parents, st, run).refs)
    decreases |run|
  {
    if run == [] {
      AdvancedSelf(parents, st.refs);
    } else {
      var st' := Next(parents, st, run[0]);
      StepAdvancesIff(parents, st, run[0]);
      StepKeepsInv(parents, st, run[0]);
      RunKeepsInv(parents, st', run[1..]);
      AdvancedTransitive(parents, st.refs, st'.refs, After(parents, st', run[1..]).refs);
    }
  }

  // ── exactly when no commit is lost ───────────────────────────────────

  /** The states a run passes through, its first and its last included. */
  ghost function States(parents: Parents, st: State, run: seq<Action>): (r: seq<State>)
    requires Possible(parents, st, run)
    ensures |r| == |run| + 1 && r[0] == st
    decreases |run|
  {
    if run == [] then [st] else [st] + States(parents, Next(parents, st, run[0]), run[1..])
  }

  /** Every tip is an ancestor of, or equal to, all later tips of its branch. */
  ghost predicate NothingLost(parents: Parents, trace: seq<State>) {
    forall k, l :: 0 <= k <= l < |trace| ==> Advanced(parents, trace[k].refs, trace[l].refs)
  }

  ghost predicate EachForward(parents: Parents, trace: seq<State>, run: seq<Action>)
    requires |trace| == |run| + 1
  {
    forall k :: 0 <= k < |run| ==> Forward(parents, trace[k], run[k])
  }

  lemma {:induction false} StatesStep(parents: Parents, st: State, run: seq<Action>, k: nat)
    requires Possible(parents, st, run) && Sound(parents, st) && k < |run|
    ensures var trace := States(parents, st, run);
            && Sound(parents, trace[k]) && Enabled(parents, trace[k], run[k])
            && trace[k + 1] == Next(parents, trace[k], run[k])
    decreases |run|
  {
    if k > 0 {
      StepKeepsSound(parents, st, run[0]);
      StatesStep(parents, Next(parents, st, run[0]), run[1..], k - 1);
    }
  }

  lemma {:induction false} AdvancedAlong(parents: Parents, trace: seq<State>, k: nat, l: nat)
    requires k <= l < |trace|
    requires forall m :: 0 <= m < |trace| - 1 ==> Advanced(parents, trace[m].refs, trace[m + 1].refs)
    ensures Advanced(parents, trace[k].refs, trace[l].refs)
    decreases l
  {
    hide Advanced;
    if k == l {
      AdvancedSelf(parents, trace[k].refs);
    } else {
      AdvancedAlong(parents, trace, k, l - 1);
      AdvancedTransitive(parents, trace[k].refs, trace[l - 1].refs, trace[l].refs);
    }
  }

  /**
   Over every interleaving of commits, merges and arbitrary pushes, no branch ever leaves a commit
   behind if and only if every push that takes effect is forward at its turn. Commits and merges never
   lose anything by themselves.
   */
  lemma NothingLostIffPushesForward(parents: Parents, store: Backend, refs: Refs, run: seq<Action>)
    requires Possible(parents, State(store, refs, map[]), run)
    ensures var trace := States(parents, State(store, refs, map[]), run);
            NothingLost(parents, trace) <==> EachForward(parents, trace, run)
  {
    var st := State(store, refs, map[]);
    var trace := States(parents, st, run);
    forall k | 0 <= k < |run|
      ensures Advanced(parents, trace[k].refs, trace[k + 1].refs) <==> Forward(parents, trace[k], run[k])
    {
      StatesStep(parents, st, run, k);
      StepAdvancesIff(parents, trace[k], run[k]);
    }
    if EachForward(parents, trace, run) {
      forall k, l | 0 <= k <= l < |trace| ensures Advanced(parents, trace[k].refs, trace[l].refs) {
        AdvancedAlong(parents, trace, k, l);
      }
    }
    if NothingLost(parents, trace) {
      forall k | 0 <= k < |run| ensures Forward(parents, trace[k], run[k]) {
        assert Advanced(parents, trace[k].refs, trace[k + 1].refs);
      }
    }
  }

  lemma {:induction false} RunsJoin(parents: Parents, st: State, first: seq<Action>, second: seq<Action>)
    requires Possible(parents, st, first + second)
    ensures Possible(parents, st, first) && Possible(parents, After(parents, st, first), second)
    ensures After(parents, st, first + second) == After(parents, After(parents, st, first), second)
    ensures ForwardRun(parents, st, first + second) ==>
              ForwardRun(parents, st, first) && ForwardRun(parents, After(parents, st, first), second)
    decreases |first|
  {
    if first == [] {
      assert first + second == second;
    } else {
      assert (first + second)[1..] == first[1..] + second;
      RunsJoin(parents, Next(parents, st, first[0]), first[1..], second);
    }
  }

  // ── the theorems, over every forward run from any refs with no request in flight ─

  /** Each tip is an ancestor of, or equal to, every later tip of its branch. */
  lemma NoCommitIsLost(parents: Parents, store: Backend, refs: Refs, first: seq<Action>, second: seq<Action>)
    requires Possible(parents, State(store, refs, map[]), first + second) && ForwardRun(parents, State(store, refs, map[]), first + second)
    ensures Possible(parents, State(store, refs, map[]), first)
    ensures Advanced(parents, After(parents, State(store, refs, map[]), first).refs, After(parents, State(store, refs, map[]), first + second).refs)
  {
    var st := State(store, refs, map[]);
    RunsJoin(parents, st, first, second);
    RunKeepsInv(parents, st, first);
    RunKeepsInv(parents, After(parents, st, first), second);
  }

  ghost predicate Acknowledged(st: State, job: nat, reply: Reply) {
    reply.Success? && job in st.jobs && st.jobs[job] == Finished(reply)
  }

  lemma {:induction false} RepliesStay(parents: Parents, st: State, run: seq<Action>, job: nat, reply: Reply)
    requires Possible(parents, st, run) && Acknowledged(st, job, reply)
    ensures Acknowledged(After(parents, st, run), job, reply)
    decreases |run|
  {
    if run != [] {
      assert run[0].Push? || run[0].job != job;
      RepliesStay(parents, Next(parents, st, run[0]), run[1..], job, reply);
    }
  }

  /**
   A commit reported to a client, and everything its request was based on (the parent of a commit;
   the source and the target of a merge), is on the branch in every later state.
   */
  lemma AcknowledgedStaysReachable(parents: Parents, store: Backend, refs: Refs, first: seq<Action>, second: seq<Action>, job: nat, reply: Reply)
    requires Possible(parents, State(store, refs, map[]), first + second) && ForwardRun(parents, State(store, refs, map[]), first + second)
    requires Possible(parents, State(store, refs, map[]), first)
    requires Acknowledged(After(parents, State(store, refs, map[]), first), job, reply)
    ensures var later := After(parents, State(store, refs, map[]), first + second).refs;
            On(parents, later, reply.branch, reply.commit) && forall b :: b in reply.basis ==> On(parents, later, reply.branch, b)
  {
    var st := State(store, refs, map[]);
    RunsJoin(parents, st, first, second);
    RepliesStay(parents, After(parents, st, first), second, job, reply);
    RunKeepsInv(parents, st, first + second);
    var last := After(parents, st, first + second);
    assert JobOk(parents, last.refs, last.jobs[job]);
    forall b | b in reply.basis ensures On(parents, last.refs, reply.branch, b) {
      ReachesTransitive(parents, last.refs[reply.branch], reply.commit, b);
    }
  }

  // ── what a finished merge is made of ─────────────────────────────────

  /** The three commits a successful merge can report: the target, the source, or a commit of both. */
  ghost predicate MergeOf(parents: Parents, s: Oid, t: Option<Oid>, c: Oid) {
    Some(c) == t || c == s || (t.Some? && parents(c) == {s, t.value})
  }

  /** The fate of a merge request that has read its two branches. */
  ghost predicate Follows(parents: Parents, j0: Job, j: Job)
    requires j0.TargetRead?
  {
    var basis := {j0.s} + Members(j0.t);
    || j == j0
    || (j.Ready? && j.branch == j0.target && j.expected == j0.t && j.basis == basis && MergeOf(parents, j0.s, j0.t, j.value))
    || j == Finished(Refused)
    || (j.Finished? && j.reply.Success? && j.reply.branch == j0.target && j.reply.basis == basis
        && MergeOf(parents, j0.s, j0.t, j.reply.commit))
  }

  lemma {:induction false} FollowsAlong(parents: Parents, st: State, run: seq<Action>, job: nat, j0: Job)
    requires Possible(parents, st, run) && j0.TargetRead? && job in st.jobs && Follows(parents, j0, st.jobs[job])
    ensures job in After(parents, st, run).jobs && Follows(parents, j0, After(parents, st, run).jobs[job])
    decreases |run|
  {
    if run != [] {
      FollowsAlong(parents, Next(parents, st, run[0]), run[1..], job, j0);
    }
  }

  /**
   Whatever else happens in between, a merge that succeeds reports a commit that contains the source
   and the target exactly as it read them, and that commit is on the target branch.
   */
  lemma MergeHoldsBothBranches(parents: Parents, store: Backend, refs: Refs, first: seq<Action>, second: seq<Action>, job: nat)
    requires Possible(parents, State(store, refs, map[]), first + second) && ForwardRun(parents, State(store, refs, map[]), first + second)
    requires Possible(parents, State(store, refs, map[]), first)
    requires var st := After(parents, State(store, refs, map[]), first);
             job in st.jobs && st.jobs[job].TargetRead?
    ensures var j0 := After(parents, State(store, refs, map[]), first).jobs[job];
            var last := After(parents, State(store, refs, map[]), first + second);
            job in last.jobs &&
            (last.jobs[job].Finished? && last.jobs[job].reply.Success? ==>
              var commit := last.jobs[job].reply.commit;
              && MergeOf(parents, j0.s, j0.t, commit)
              && Ancestor(parents, j0.s, commit)
              && (j0.t.Some? ==> Ancestor(parents, j0.t.value, commit))
              && On(parents, last.refs, j0.target, commit))
  {
    var st := State(store, refs, map[]);
    RunsJoin(parents, st, first, second);
    var mid := After(parents, st, first);
    FollowsAlong(parents, mid, second, job, mid.jobs[job]);
    RunKeepsInv(parents, st, first + second);
    var last := After(parents, st, first + second);
    assert JobOk(parents, last.refs, last.jobs[job]);
  }

  // ── compare-and-swap without the ABA problem ─────────────────────────

  /** The graph has no cycles: every commit ranks above its parents. */
  ghost predicate Ranked(parents: Parents, rank: Oid -> nat) {
    forall c, p :: p in parents(c) ==> rank(p) < rank(c)
  }

  lemma {:induction false} StepsRank(parents: Parents, rank: Oid -> nat, a: Oid, b: Oid, n: nat)
    requires Ranked(parents, rank) && Steps(parents, a, b, n)
    ensures n > 0 ==> rank(b) < rank(a)
    ensures n == 0 ==> a == b
    decreases n
  {
    if n > 0 {
      var m :| m in parents(a) && Steps(parents, m, b, n - 1);
      StepsRank(parents, rank, m, b, n - 1);
    }
  }

  lemma AncestorsAntisymmetric(parents: Parents, rank: Oid -> nat, a: Oid, b: Oid)
    requires Ranked(parents, rank) && Ancestor(parents, a, b) && Ancestor(parents, b, a)
    ensures a == b
  {
    var n: nat :| Steps(parents, b, a, n);
    var k: nat :| Steps(parents, a, b, k);
    StepsRank(parents, rank, b, a, n);
    StepsRank(parents, rank, a, b, k);
  }

  /**
   Between two positions of a run, a swap that names the tip read at the first one matches at the second
   exactly when the branch never moved in between: a branch that has left a tip cannot come back to it.
   */
  lemma SwapAppliesIffBranchStood(parents: Parents, rank: Oid -> nat, store: Backend, refs: Refs, run: seq<Action>,
                                  k: nat, l: nat, branch: Key, value: Oid)
    requires Ranked(parents, rank) && Possible(parents, State(store, refs, map[]), run) && k <= l <= |run|
    requires EachForward(parents, States(parents, State(store, refs, map[]), run), run)
    requires branch in States(parents, State(store, refs, map[]), run)[k].refs
    ensures var trace := States(parents, State(store, refs, map[]), run);
            var tip := Current(trace[k].refs, branch);
            Named(store, tip) == tip ==>
              (Matches(store, Update(branch, tip, value, 0), Current(trace[l].refs, branch)) <==>
               forall m :: k <= m <= l ==> Current(trace[m].refs, branch) == tip)
  {
    hide Forward, Reaches, Ranked;
    NothingLostIffPushesForward(parents, store, refs, run);
    var trace := States(parents, State(store, refs, map[]), run);
    var tip := Current(trace[k].refs, branch);
    if Current(trace[l].refs, branch) == tip {
      forall m | k <= m <= l ensures Current(trace[m].refs, branch) == tip {
        assert Advanced(parents, trace[k].refs, trace[m].refs) && Advanced(parents, trace[m].refs, trace[l].refs);
        assert On(parents, trace[m].refs, branch, tip.value);
        AncestorsAntisymmetric(parents, rank, tip.value, trace[m].refs[branch]);
      }
    }
  }

  // ── why pushes have to be constrained ────────────────────────────────

  const MAIN: Key := ("repo", "refs/heads/main")

  /** A push may name the current tip and any other commit: the branch then no longer holds the old tip. */
  lemma ForcedPushLosesCommits(parents: Parents, rank: Oid -> nat, store: Backend, c: Oid, unrelated: Oid)
    requires Ranked(parents, rank) && !Ancestor(parents, c, unrelated) && Obedient(store) && c != ZERO
    ensures var st := State(store, map[MAIN := c], map[]);
            var a := Push(Update(MAIN, Some(c), unrelated, 0));
            && Enabled(parents, st, a) && !Forward(parents, st, a)
            && !On(parents, Next(parents, st, a).refs, MAIN, c)
    ensures var st := State(store, map[MAIN := c], map[]);
            var a := Push(Delete(MAIN, Some(c), 0));
            Enabled(parents, st, a) && !Forward(parents, st, a) && MAIN !in Next(parents, st, a).refs
  {
  }
}
