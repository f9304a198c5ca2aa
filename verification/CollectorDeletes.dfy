/** Exactly when deletions leave every repo with its source, and when a check made before them still holds. */
module CollectorDeletes {
  import opened Base
  import opened ForkRelation
  import opened Cascade
  import opened Collector
  import opened CollectorSafety

  /** The states a history passes through, its first and its last included. */
  ghost function States(links: Links, s: State, acts: seq<Action>): (r: seq<State>)
    requires Possible(links, s, acts, false)
    ensures |r| == |acts| + 1 && r[0] == s
    decreases |acts|
  {
    if acts == [] then [s] else [s] + States(links, Next(links, s, acts[0]), acts[1..])
  }

  lemma {:induction false} StatesStep(links: Links, s: State, acts: seq<Action>, k: nat)
    requires Possible(links, s, acts, false) && k < |acts|
    ensures var trace := States(links, s, acts);
            Enabled(links, trace[k], acts[k]) && trace[k + 1] == Next(links, trace[k], acts[k])
    decreases k
  {
    hide Enabled, Next;
    if k > 0 {
      StatesStep(links, Next(links, s, acts[0]), acts[1..], k - 1);
    }
  }

  // ── what a step does to the repos and to a delete request ────────────

  ghost function Repos(s: State, a: Action): Sources {
    match a
    case Create(id) => s.src[id := None]
    case ForkLink(source, id) => s.src[id := Some(source)]
    case DeleteNext(d) => if d in s.deletes && s.deletes[d] != [] then s.src - {s.deletes[d][0]} else s.src
    case _ => s.src
  }

  lemma ReposAfter(links: Links, s: State, a: Action)
    requires Enabled(links, s, a)
    ensures Next(links, s, a).src == Repos(s, a)
    ensures a.Create? || a.ForkLink? ==> a.id !in s.src
    ensures a.DeleteNext? ==> a.d in s.deletes && s.deletes[a.d] != []
  {
    hide Enabled, Next;
    if a.Create? || a.ForkLink? || a.DeleteNext? {
      ReposChange(links, s, a);
    } else {
      ReposStay(links, s, a);
    }
  }

  lemma ReposChange(links: Links, s: State, a: Action)
    requires Enabled(links, s, a) && (a.Create? || a.ForkLink? || a.DeleteNext?)
    ensures Next(links, s, a).src == Repos(s, a)
    ensures a.Create? || a.ForkLink? ==> a.id !in s.src
    ensures a.DeleteNext? ==> a.d in s.deletes && s.deletes[a.d] != []
  {
    hide Resolvable, RefsReach, Checked, Doomed, ScanOver, NewRun, Closure, Snapshot, Stamped, Without;
  }

  lemma ReposStay(links: Links, s: State, a: Action)
    requires Enabled(links, s, a) && !a.Create? && !a.ForkLink? && !a.DeleteNext?
    ensures Next(links, s, a).src == s.src
  {
    hide Resolvable, RefsReach, Checked, Doomed, ScanOver, NewRun, Closure, Snapshot, Stamped, Without;
  }

  lemma RequestAfter(links: Links, s: State, a: Action, d: DeleteId)
    requires d in s.deletes && Enabled(links, s, a) && a != DeleteEnd(d)
    ensures d in Next(links, s, a).deletes
    ensures Next(links, s, a).deletes[d] ==
            if a == DeleteNext(d) && s.deletes[d] != [] then s.deletes[d][1..] else s.deletes[d]
  {
    hide Enabled, Next;
    if a.DeleteStart? || a.DeleteNext? || a.DeleteEnd? {
      RequestsChange(links, s, a, d);
    } else {
      RequestsStay(links, s, a);
    }
  }

  lemma RequestsChange(links: Links, s: State, a: Action, d: DeleteId)
    requires d in s.deletes && Enabled(links, s, a) && a != DeleteEnd(d) && (a.DeleteStart? || a.DeleteNext? || a.DeleteEnd?)
    ensures d in Next(links, s, a).deletes
    ensures Next(links, s, a).deletes[d] ==
            if a == DeleteNext(d) && s.deletes[d] != [] then s.deletes[d][1..] else s.deletes[d]
  {
    hide Resolvable, RefsReach, Checked, Doomed, ScanOver, NewRun, Closure, Snapshot, Stamped, Without;
  }

  lemma RequestsStay(links: Links, s: State, a: Action)
    requires Enabled(links, s, a) && !a.DeleteStart? && !a.DeleteNext? && !a.DeleteEnd?
    ensures Next(links, s, a).deletes == s.deletes
  {
    hide Resolvable, RefsReach, Checked, Doomed, ScanOver, NewRun, Closure, Snapshot, Stamped, Without;
  }

  // ── no repo without its source ───────────────────────────────────────

  ghost predicate SourcesExist(s: State) {
    forall r :: r in s.src && s.src[r].Some? ==> s.src[r].value in s.src
  }

  /** What a caller could check right before the step: a fork has a source, and a removed repo no forks. */
  ghost predicate KeepsSources(links: Links, s: State, a: Action)
    requires Enabled(links, s, a)
  {
    match a
    case ForkLink(source, id) => source in s.src || source == id
    case DeleteNext(d) => forall q :: q in s.src && q != s.deletes[d][0] ==> s.src[q] != Some(s.deletes[d][0])
    case _ => true
  }

  lemma SourceStepIff(links: Links, s: State, a: Action)
    requires SourcesExist(s) && Enabled(links, s, a)
    ensures SourcesExist(Next(links, s, a)) <==> KeepsSources(links, s, a)
  {
    hide Next, Enabled;
    ReposAfter(links, s, a);
    var s' := Next(links, s, a);
    match a
    case ForkLink(source, id) =>
      assert s'.src[id] == Some(source);
    case DeleteNext(d) =>
      var id := s.deletes[d][0];
      if q :| q in s.src && q != id && s.src[q] == Some(id) {
        assert q in s'.src && s'.src[q] == Some(id);
      }
    case _ =>
  }

  /**
   Over every history, benign or not: every repo keeps its source throughout, if and only if every fork
   is made of a repo that is there and no repo is removed while another one names it.
   */
  lemma SourcesAlwaysExistIff(links: Links, s: State, acts: seq<Action>)
    requires SourcesExist(s) && Possible(links, s, acts, false)
    ensures var trace := States(links, s, acts);
            (forall k :: 0 <= k < |trace| ==> SourcesExist(trace[k])) <==>
            (forall k :: 0 <= k < |acts| ==> Enabled(links, trace[k], acts[k]) && KeepsSources(links, trace[k], acts[k]))
  {
    hide SourcesExist, KeepsSources, Enabled, Next, States, Possible;
    var trace := States(links, s, acts);
    forall k | 0 <= k < |acts| && SourcesExist(trace[k])
      ensures Enabled(links, trace[k], acts[k]) && (SourcesExist(trace[k + 1]) <==> KeepsSources(links, trace[k], acts[k]))
    {
      StatesStep(links, s, acts, k);
      SourceStepIff(links, trace[k], acts[k]);
    }
    if forall k :: 0 <= k < |trace| ==> SourcesExist(trace[k]) {
      forall k | 0 <= k < |acts| ensures Enabled(links, trace[k], acts[k]) && KeepsSources(links, trace[k], acts[k]) {
        assert SourcesExist(trace[k]) && SourcesExist(trace[k + 1]);
      }
    }
    if forall k :: 0 <= k < |acts| ==> Enabled(links, trace[k], acts[k]) && KeepsSources(links, trace[k], acts[k]) {
      for k := 0 to |acts|
        invariant forall j :: 0 <= j <= k ==> SourcesExist(trace[j])
      {
        assert SourcesExist(trace[k]) && KeepsSources(links, trace[k], acts[k]);
      }
    }
  }

  // ── how long a check holds ───────────────────────────────────────────

  /** The new fork `id` will still be there when its source goes. */
  ghost predicate Overtakes(ids: seq<RepoId>, source: RepoId, id: RepoId) {
    exists j :: 0 <= j < |ids| && ids[j] == source && id !in ids[..j + 1]
  }

  ghost predicate OvertakenBy(s: State, d: DeleteId, a: Action)
    requires d in s.deletes
  {
    a.ForkLink? && Overtakes(s.deletes[d], a.source, a.id)
  }

  lemma ForkStepIff(src: Sources, ids: seq<RepoId>, source: RepoId, id: RepoId)
    requires SafeDeletion(src, ids) && id !in src
    ensures SafeDeletion(src[id := Some(source)], ids) <==> !Overtakes(ids, source, id)
  {
    var src' := src[id := Some(source)];
    forall k | 0 <= k <= |ids| && source in ids[..k] && id !in ids[..k] ensures Overtakes(ids, source, id) {
      var j :| 0 <= j < k && ids[..k][j] == source;
      assert ids[..j + 1] <= ids[..k] && id !in ids[..j + 1];
    }
    if j :| 0 <= j < |ids| && ids[j] == source && id !in ids[..j + 1] {
      assert ids[..j + 1][j] == source && src'[id].value in ids[..j + 1];
    }
  }

  /**
   A delete request that was checked stays safe for what is left of it through every step, its own
   removals included, except exactly a fork of a repo it has still to remove that will not go first.
   */
  lemma CheckStepIff(links: Links, s: State, a: Action, d: DeleteId)
    requires d in s.deletes && SafeDeletion(s.src, s.deletes[d]) && Enabled(links, s, a) && a != DeleteEnd(d)
    ensures var s' := Next(links, s, a);
            d in s'.deletes && (SafeDeletion(s'.src, s'.deletes[d]) <==> !OvertakenBy(s, d, a))
  {
    hide SafeDeletion, Overtakes, Enabled, Next;
    ReposAfter(links, s, a);
    RequestAfter(links, s, a, d);
    match a
    case Create(id) => FreshRepoIsSafe(s.src, s.deletes[d], id);
    case ForkLink(source, id) => ForkStepIff(s.src, s.deletes[d], source, id);
    case DeleteNext(e) =>
      if e == d {
        NextOneHasNoForks(s.src, s.deletes[d]);
      } else {
        SafeWithFewer(s.src, s.deletes[e][0], s.deletes[d]);
      }
    case _ =>
  }

  lemma FreshRepoIsSafe(src: Sources, ids: seq<RepoId>, id: RepoId)
    requires SafeDeletion(src, ids) && id !in src
    ensures SafeDeletion(src[id := None], ids)
  {
  }

  /** With a new id, those are the forks of what is left to remove. */
  lemma OvertakesIffListed(ids: seq<RepoId>, source: RepoId, id: RepoId)
    requires id !in ids
    ensures Overtakes(ids, source, id) <==> source in ids
  {
    if source in ids {
      var j :| 0 <= j < |ids| && ids[j] == source;
      assert id !in ids[..j + 1];
    }
  }

  ghost predicate StillSafe(s: State, d: DeleteId) {
    d in s.deletes && SafeDeletion(s.src, s.deletes[d])
  }

  /** Over every history after the check: the request is safe throughout if and only if no fork overtakes it. */
  lemma CheckHoldsIffNotOvertaken(links: Links, s: State, acts: seq<Action>, d: DeleteId)
    requires StillSafe(s, d) && Possible(links, s, acts, false) && DeleteEnd(d) !in acts
    ensures var trace := States(links, s, acts);
            (forall k :: 0 <= k < |trace| ==> StillSafe(trace[k], d)) <==>
            (forall k :: 0 <= k < |acts| ==> d in trace[k].deletes && !OvertakenBy(trace[k], d, acts[k]))
  {
    hide SafeDeletion, OvertakenBy, Enabled, Next, States, Possible;
    var trace := States(links, s, acts);
    forall k | 0 <= k < |acts| && StillSafe(trace[k], d)
      ensures StillSafe(trace[k + 1], d) <==> !OvertakenBy(trace[k], d, acts[k])
    {
      StatesStep(links, s, acts, k);
      CheckStepIff(links, trace[k], acts[k], d);
    }
    if forall k :: 0 <= k < |trace| ==> StillSafe(trace[k], d) {
      forall k | 0 <= k < |acts| ensures d in trace[k].deletes && !OvertakenBy(trace[k], d, acts[k]) {
        assert StillSafe(trace[k], d) && StillSafe(trace[k + 1], d);
      }
    }
    if forall k :: 0 <= k < |acts| ==> d in trace[k].deletes && !OvertakenBy(trace[k], d, acts[k]) {
      for k := 0 to |acts|
        invariant forall j :: 0 <= j <= k ==> StillSafe(trace[j], d)
      {
        assert StillSafe(trace[k], d) && !OvertakenBy(trace[k], d, acts[k]);
      }
    }
  }

  /** As long as it is safe, the next removal leaves every repo its source. */
  lemma SafeRemovalKeepsSources(links: Links, s: State, d: DeleteId)
    requires StillSafe(s, d) && Enabled(links, s, DeleteNext(d))
    ensures KeepsSources(links, s, DeleteNext(d))
  {
    NextOneHasNoForks(s.src, s.deletes[d]);
  }
}
