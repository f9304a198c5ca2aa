/** Cascade delete: the order in which a repo and its transitive forks are removed. */
module Cascade {
  import opened Base
  import opened ForkRelation

  /** The levels of the fork tree joined deepest first. */
  function DeepestFirst(levels: seq<seq<RepoId>>): seq<RepoId> {
    if levels == [] then [] else DeepestFirst(levels[1..]) + levels[0]
  }

  lemma {:induction false} DeepestFirstSnoc(levels: seq<seq<RepoId>>, next: seq<RepoId>)
    ensures DeepestFirst(levels + [next]) == next + DeepestFirst(levels)
  {
    if levels == [] {
      assert ([next])[1..] == [];
    } else {
      assert (levels + [next])[1..] == levels[1..] + [next];
      DeepestFirstSnoc(levels[1..], next);
    }
  }

  /** Every repo in `order` other than the seed has its source further down the order. */
  ghost predicate ForksFirst(src: Sources, id: RepoId, order: seq<RepoId>) {
    forall i :: 0 <= i < |order| && order[i] != id ==>
      exists j :: i < j < |order| && SourceOf(src, order[i]) == Some(order[j])
  }

  /** Deleting along `order` never leaves a live repo whose alternates target is gone. */
  ghost predicate SafeDeletion(src: Sources, order: seq<RepoId>) {
    forall k, x :: 0 <= k <= |order| && x in src && x !in order[..k] && src[x].Some? ==>
      src[x].value !in order[..k]
  }

  ghost function IdsOnDisk(dir: seq<RepoId>, id: RepoId): set<RepoId> {
    (set x | x in dir) + {id}
  }

  /** What the level loop keeps about the repos found so far and their order. */
  ghost predicate Found(dir: seq<RepoId>, src: Sources, id: RepoId, order: seq<RepoId>) {
    && NoDup(order)
    && |order| > 0 && order[|order| - 1] == id
    && ForksFirst(src, id, order)
    && forall x :: x in order ==> x in IdsOnDisk(dir, id) && InChain(src, x, id)
  }

  /** Every fork of a repo in `done` is already in `seen`. */
  ghost predicate ForksSeen(dir: seq<RepoId>, src: Sources, done: seq<RepoId>, seen: set<RepoId>) {
    forall x, y :: x in done && y in ForksOf(dir, src, x) ==> y in seen
  }

  /** The next level: new, distinct, and each a fork of a repo in `last`. */
  ghost predicate NextLevel(dir: seq<RepoId>, src: Sources, last: seq<RepoId>, order: seq<RepoId>, next: seq<RepoId>) {
    && NoDup(next)
    && (forall x :: x in next ==> x in dir && x !in order)
    && forall x :: x in next ==> exists y :: y in last && SourceOf(src, x) == Some(y)
  }

  lemma NoDupJoin(a: seq<RepoId>, b: seq<RepoId>)
    requires NoDup(a) && NoDup(b) && forall x :: x in a ==> x !in b
    ensures NoDup(a + b)
  {
    forall i, j | 0 <= i < j < |a + b| ensures (a + b)[i] != (a + b)[j] {
      if i < |a| <= j {
        assert a[i] in a && b[j - |a|] in b;
      }
    }
  }

  lemma LevelAdded(dir: seq<RepoId>, src: Sources, id: RepoId, last: seq<RepoId>, order: seq<RepoId>, next: seq<RepoId>)
    requires Found(dir, src, id, order) && NextLevel(dir, src, last, order, next)
    requires forall x :: x in last ==> x in order
    ensures Found(dir, src, id, next + order)
  {
    var all := next + order;
    assert all[|all| - 1] == id;
    NoDupJoin(next, order);
    forall i | 0 <= i < |all| && all[i] != id
      ensures exists j :: i < j < |all| && SourceOf(src, all[i]) == Some(all[j])
    {
      if i < |next| {
        assert all[i] == next[i] && next[i] in next;
        var y :| y in last && SourceOf(src, next[i]) == Some(y);
        var j :| 0 <= j < |order| && order[j] == y;
        assert all[|next| + j] == y;
      } else {
        var j :| i - |next| < j < |order| && SourceOf(src, order[i - |next|]) == Some(order[j]);
        assert all[|next| + j] == order[j];
      }
    }
    forall x | x in all ensures x in IdsOnDisk(dir, id) && InChain(src, x, id) {
      if x in next {
        var y :| y in last && SourceOf(src, x) == Some(y);
        ChainUp(src, x, y, id);
      }
    }
  }

  /** Collect the forks of one repo that have not been seen yet. */
  method AddForks(dir: seq<RepoId>, src: Sources, ghost last: seq<RepoId>, ghost order: seq<RepoId>,
                  repo: RepoId, seen: set<RepoId>, next: seq<RepoId>)
    returns (seen': set<RepoId>, next': seq<RepoId>)
    requires repo in last && NextLevel(dir, src, last, order, next)
    requires forall x :: x in seen <==> x in order || x in next
    ensures NextLevel(dir, src, last, order, next')
    ensures forall x :: x in seen' <==> x in order || x in next'
    ensures seen <= seen' && forall y :: y in ForksOf(dir, src, repo) ==> y in seen'
  {
    seen', next' := seen, next;
    var children := ForksOf(dir, src, repo);
    for i := 0 to |children|
      invariant NextLevel(dir, src, last, order, next')
      invariant forall x :: x in seen' <==> x in order || x in next'
      invariant seen <= seen' && forall k :: 0 <= k < i ==> children[k] in seen'
    {
      if children[i] !in seen' {
        assert children[i] in children;
        seen', next' := seen' + {children[i]}, next' + [children[i]];
      }
    }
  }

  /** One turn of the level loop: the unseen forks of every repo on the last level. */
  method CollectLevel(dir: seq<RepoId>, src: Sources, last: seq<RepoId>, ghost order: seq<RepoId>, seen: set<RepoId>)
    returns (seen': set<RepoId>, next: seq<RepoId>)
    requires forall x :: x in seen <==> x in order
    ensures NextLevel(dir, src, last, order, next)
    ensures forall x :: x in seen' <==> x in order || x in next
    ensures seen <= seen' && ForksSeen(dir, src, last, seen')
  {
    seen', next := seen, [];
    for i := 0 to |last|
      invariant NextLevel(dir, src, last, order, next)
      invariant forall x :: x in seen' <==> x in order || x in next
      invariant seen <= seen' && ForksSeen(dir, src, last[..i], seen')
    {
      seen', next := AddForks(dir, src, last, order, last[i], seen', next);
      assert last[..i + 1] == last[..i] + [last[i]];
    }
    assert last[..|last|] == last;
  }

  /** The level loop's invariant; `done` lists the repos whose forks have all been collected. */
  ghost predicate LevelsInv(dir: seq<RepoId>, src: Sources, id: RepoId, levels: seq<seq<RepoId>>,
                            done: seq<RepoId>, seen: set<RepoId>)
  {
    && levels != []
    && Found(dir, src, id, DeepestFirst(levels))
    && DeepestFirst(levels) == levels[|levels| - 1] + done
    && (forall x :: x in seen <==> x in DeepestFirst(levels))
    && ForksSeen(dir, src, done, seen)
  }

  lemma NextTurn(dir: seq<RepoId>, src: Sources, id: RepoId, levels: seq<seq<RepoId>>, done: seq<RepoId>,
                 seen: set<RepoId>, next: seq<RepoId>, seen': set<RepoId>)
    requires LevelsInv(dir, src, id, levels, done, seen) && next != []
    requires NextLevel(dir, src, levels[|levels| - 1], DeepestFirst(levels), next)
    requires forall x :: x in seen' <==> x in DeepestFirst(levels) || x in next
    requires seen <= seen' && ForksSeen(dir, src, levels[|levels| - 1], seen')
    ensures LevelsInv(dir, src, id, levels + [next], levels[|levels| - 1] + done, seen')
    ensures |IdsOnDisk(dir, id) - seen'| < |IdsOnDisk(dir, id) - seen|
  {
    LevelAdded(dir, src, id, levels[|levels| - 1], DeepestFirst(levels), next);
    DeepestFirstSnoc(levels, next);
    assert next[0] in next;
    var less := IdsOnDisk(dir, id) - seen - {next[0]};
    SmallerSet(IdsOnDisk(dir, id) - seen', less);
    assert IdsOnDisk(dir, id) - seen == less + {next[0]};
  }

  lemma LevelsDone(dir: seq<RepoId>, src: Sources, id: RepoId, order: seq<RepoId>, seen: set<RepoId>)
    requires Listing(dir, src) && Found(dir, src, id, order)
    requires (forall x :: x in seen <==> x in order) && ForksSeen(dir, src, order, seen)
    ensures forall x :: x in order <==> InChain(src, x, id)
  {
    forall x | InChain(src, x, id) ensures x in seen {
      var n: nat :| Uses(src, x, id, n);
      assert order[|order| - 1] in order;
      ClosedHoldsForks(dir, src, seen, id, x, n);
    }
  }

  /**
   The deletion order of a cascade: the seed and exactly its transitive forks, each once, every
   fork before its source and the seed last. The level loop ends on cyclic relations too.
   */
  method CascadeDeleteOrder(dir: seq<RepoId>, src: Sources, id: RepoId) returns (out: seq<RepoId>)
    requires Listing(dir, src)
    ensures NoDup(out) && forall x :: x in out <==> InChain(src, x, id)
    ensures |out| > 0 && out[|out| - 1] == id
    ensures ForksFirst(src, id, out)
  {
    var levels := [[id]];
    var seen := {id};
    ChainSelf(src, id);
    assert DeepestFirst(levels) == [id];
    ghost var done: seq<RepoId> := [];
    while true
      invariant LevelsInv(dir, src, id, levels, done, seen)
      decreases |IdsOnDisk(dir, id) - seen|
    {
      ghost var order, last := DeepestFirst(levels), levels[|levels| - 1];
      var seen', next := CollectLevel(dir, src, levels[|levels| - 1], order, seen);
      if next == [] {
        LevelsDone(dir, src, id, order, seen');
        break;
      }
      NextTurn(dir, src, id, levels, done, seen, next, seen');
      levels, seen, done := levels + [next], seen', last + done;
    }
    out := [];
    var i := |levels|;
    while i > 0
      invariant 0 <= i <= |levels| && out == DeepestFirst(levels[i..])
    {
      i := i - 1;
      assert levels[i..][1..] == levels[i + 1..];
      out := out + levels[i];
    }
    assert levels[0..] == levels;
  }

  lemma SmallerSet<T>(a: set<T>, b: set<T>)
    requires a <= b
    ensures |a| <= |b|
  {
    assert b == a + (b - a);
  }

  lemma {:induction false} ClosedHoldsForks(dir: seq<RepoId>, src: Sources, seen: set<RepoId>, id: RepoId, x: RepoId, n: nat)
    requires Listing(dir, src) && id in seen && Uses(src, x, id, n)
    requires forall r, y :: r in seen && y in ForksOf(dir, src, r) ==> y in seen
    ensures x in seen
    decreases n
  {
    if n > 0 {
      ClosedHoldsForks(dir, src, seen, id, SourceOf(src, x).value, n - 1);
    }
  }

  lemma ChainUpAll(src: Sources, x: RepoId, id: RepoId)
    ensures SourceOf(src, x).Some? && InChain(src, SourceOf(src, x).value, id) ==> InChain(src, x, id)
  {
    if SourceOf(src, x).Some? && InChain(src, SourceOf(src, x).value, id) {
      ChainUp(src, x, SourceOf(src, x).value, id);
    }
  }

  lemma FoundAfter(out: seq<RepoId>, k: nat, x: RepoId) returns (i: nat)
    requires k <= |out| && x in out && x !in out[..k]
    ensures k <= i < |out| && out[i] == x
  {
    i :| i < |out| && out[i] == x;
  }

  lemma NotBefore(out: seq<RepoId>, k: nat, j: nat)
    requires NoDup(out) && k <= j < |out|
    ensures out[j] !in out[..k]
  {
  }

  /** While a fork other than the seed is alive, so is its source. */
  lemma SourceOutlives(src: Sources, id: RepoId, out: seq<RepoId>, k: nat, x: RepoId)
    requires NoDup(out) && ForksFirst(src, id, out) && k <= |out|
    requires x in out && x !in out[..k] && x != id && SourceOf(src, x).Some?
    ensures SourceOf(src, x).value !in out[..k]
  {
    var i := FoundAfter(out, k, x);
    var j :| i < j < |out| && SourceOf(src, out[i]) == Some(out[j]);
    NotBefore(out, k, j);
  }

  /**
   The order is a safe deletion order exactly when the seed is not a transitive fork of itself
   through another repo; in particular always on an acyclic fork relation.
   */
  lemma CascadeIsSafeIff(src: Sources, id: RepoId, out: seq<RepoId>)
    requires NoDup(out) && forall x :: x in out <==> InChain(src, x, id)
    requires |out| > 0 && out[|out| - 1] == id && ForksFirst(src, id, out)
    ensures SafeDeletion(src, out) <==>
            !(SourceOf(src, id).Some? && SourceOf(src, id).value != id && InChain(src, SourceOf(src, id).value, id))
  {
    if SourceOf(src, id).Some? && SourceOf(src, id).value != id && InChain(src, SourceOf(src, id).value, id) {
      var k := |out| - 1;
      var j :| 0 <= j < |out| && out[j] == SourceOf(src, id).value;
      assert id !in out[..k] && out[..k][j] == out[j];
    } else {
      forall k, x | 0 <= k <= |out| && x in src && x !in out[..k] && src[x].Some?
        ensures src[x].value !in out[..k]
      {
        ChainUpAll(src, x, id);
        if x in out && x != id {
          SourceOutlives(src, id, out, k, x);
        }
      }
    }
  }
}
