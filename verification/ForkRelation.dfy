/**
 The fork relation: what the alternates lookup answers for every repo on disk. A fork has one
 source; the relation is read upwards (source of a repo) and downwards (forks of a repo).
 */
module ForkRelation {
  import opened Base

  /** For each repo on disk, the repo its alternates file names, if any. */
  type Sources = map<RepoId, Option<RepoId>>

  function SourceOf(src: Sources, id: RepoId): Option<RepoId> {
    if id in src then src[id] else None
  }

  /** `a` is reached from `r` by following `n` alternates files. */
  ghost predicate Uses(src: Sources, r: RepoId, a: RepoId, n: nat)
    decreases n
  {
    if n == 0 then r == a else SourceOf(src, r).Some? && Uses(src, SourceOf(src, r).value, a, n - 1)
  }

  /** `a` belongs to the alternates chain of `r`: `r` itself, its source, the source's source, ... */
  ghost predicate InChain(src: Sources, r: RepoId, a: RepoId) {
    exists n: nat :: Uses(src, r, a, n)
  }

  ghost predicate Linked(src: Sources, a: RepoId, b: RepoId) {
    SourceOf(src, a) == Some(b) || SourceOf(src, b) == Some(a)
  }

  ghost predicate Joined(src: Sources, a: RepoId, b: RepoId, n: nat)
    decreases n
  {
    if n == 0 then a == b else exists m :: Linked(src, a, m) && Joined(src, m, b, n - 1)
  }

  /** `a` and `b` lie in one fork network. */
  ghost predicate Connected(src: Sources, a: RepoId, b: RepoId) {
    exists n: nat :: Joined(src, a, b, n)
  }

  ghost predicate NoDup<T>(s: seq<T>) {
    forall i, j :: 0 <= i < j < |s| ==> s[i] != s[j]
  }

  /** `dir` is a directory listing that shows every repo with an alternates answer. */
  ghost predicate Listing(dir: seq<RepoId>, src: Sources) {
    NoDup(dir) && forall x :: x in src ==> x in dir
  }

  /** The forks of `id` in listing order; a repo is never reported as its own fork. */
  function ForksOf(dir: seq<RepoId>, src: Sources, id: RepoId): (r: seq<RepoId>)
    ensures forall x :: x in r <==> x in dir && x != id && SourceOf(src, x) == Some(id)
  {
    if dir == [] then []
    else if dir[0] != id && SourceOf(src, dir[0]) == Some(id) then [dir[0]] + ForksOf(dir[1..], src, id)
    else ForksOf(dir[1..], src, id)
  }

  lemma ChainSelf(src: Sources, r: RepoId)
    ensures InChain(src, r, r)
  {
    assert Uses(src, r, r, 0);
  }

  lemma ChainUp(src: Sources, r: RepoId, s: RepoId, a: RepoId)
    requires SourceOf(src, r) == Some(s) && InChain(src, s, a)
    ensures InChain(src, r, a)
  {
    var n: nat :| Uses(src, s, a, n);
    assert Uses(src, r, a, n + 1);
  }

  lemma {:induction false} UsesJoin(src: Sources, r: RepoId, a: RepoId, b: RepoId, n: nat, k: nat)
    requires Uses(src, r, a, n) && Uses(src, a, b, k)
    ensures Uses(src, r, b, n + k)
    decreases n
  {
    if n > 0 {
      UsesJoin(src, SourceOf(src, r).value, a, b, n - 1, k);
    }
  }

  /** The chain of a repo's chain is part of its own. */
  lemma ChainJoin(src: Sources, r: RepoId, a: RepoId, b: RepoId)
    requires InChain(src, r, a) && InChain(src, a, b)
    ensures InChain(src, r, b)
  {
    var n: nat :| Uses(src, r, a, n);
    var k: nat :| Uses(src, a, b, k);
    UsesJoin(src, r, a, b, n, k);
  }

  // ── the network is an equivalence class ──────────────────────────────

  lemma {:induction false} JoinedTransitive(src: Sources, a: RepoId, b: RepoId, c: RepoId, n: nat, k: nat)
    requires Joined(src, a, b, n) && Joined(src, b, c, k)
    ensures Joined(src, a, c, n + k)
    decreases n
  {
    if n > 0 {
      var m :| Linked(src, a, m) && Joined(src, m, b, n - 1);
      JoinedTransitive(src, m, b, c, n - 1, k);
    }
  }

  lemma {:induction false} JoinedSymmetric(src: Sources, a: RepoId, b: RepoId, n: nat)
    requires Joined(src, a, b, n)
    ensures Joined(src, b, a, n)
    decreases n
  {
    if n > 0 {
      var m :| Linked(src, a, m) && Joined(src, m, b, n - 1);
      JoinedSymmetric(src, m, b, n - 1);
      assert Linked(src, m, a) && Joined(src, a, a, 0);
      assert Joined(src, m, a, 1);
      JoinedTransitive(src, b, m, a, n - 1, 1);
    }
  }

  /** Every member of a network sees the same network. */
  lemma SameNetworkFromAnyMember(src: Sources, a: RepoId, b: RepoId)
    requires Connected(src, a, b)
    ensures forall x :: Connected(src, a, x) <==> Connected(src, b, x)
  {
    var n: nat :| Joined(src, a, b, n);
    JoinedSymmetric(src, a, b, n);
    forall x ensures Connected(src, a, x) <==> Connected(src, b, x) {
      if Connected(src, a, x) {
        var k: nat :| Joined(src, a, x, k);
        JoinedTransitive(src, b, a, x, n, k);
      }
      if Connected(src, b, x) {
        var k: nat :| Joined(src, b, x, k);
        JoinedTransitive(src, a, b, x, n, k);
      }
    }
  }

  lemma {:induction false} ChainIsConnected(src: Sources, r: RepoId, a: RepoId, n: nat)
    requires Uses(src, r, a, n)
    ensures Connected(src, a, r)
    decreases n
  {
    if n == 0 {
      assert Joined(src, a, r, 0);
    } else {
      var s := SourceOf(src, r).value;
      ChainIsConnected(src, s, a, n - 1);
      var k: nat :| Joined(src, a, s, k);
      assert Linked(src, s, r) && Joined(src, r, r, 0);
      assert Joined(src, s, r, 1);
      JoinedTransitive(src, a, s, r, k, 1);
    }
  }

  /** A set closed under links that holds `a` holds the whole network of `a`. */
  lemma {:induction false} ClosedHoldsNetwork(src: Sources, s: set<RepoId>, a: RepoId, b: RepoId, n: nat)
    requires a in s && Joined(src, a, b, n)
    requires forall x, y :: x in s && Linked(src, x, y) ==> y in s
    ensures b in s
    decreases n
  {
    if n > 0 {
      var m :| Linked(src, a, m) && Joined(src, m, b, n - 1);
      ClosedHoldsNetwork(src, s, m, b, n - 1);
    }
  }

  // ── network_around ───────────────────────────────────────────────────

  ghost function Universe(src: Sources, seed: RepoId): set<RepoId> {
    src.Keys + (set x | x in src && src[x].Some? :: src[x].value) + {seed}
  }

  /** One step of the walk in both directions: the source of `id`, then its forks. */
  function Neighbours(dir: seq<RepoId>, src: Sources, id: RepoId): (r: seq<RepoId>)
    ensures Listing(dir, src) ==> forall y :: Linked(src, id, y) ==> y == id || y in r
    ensures forall y :: y in r ==> Linked(src, id, y)
  {
    (if SourceOf(src, id).Some? then [SourceOf(src, id).value] else []) + ForksOf(dir, src, id)
  }

  /** What the walk keeps: it stays inside the network, and links of visited repos are visited or queued. */
  ghost predicate WalkInv(src: Sources, seed: RepoId, visited: set<RepoId>, queue: seq<RepoId>) {
    && (seed in visited || seed in queue)
    && (forall x :: x in visited || x in queue ==> x in Universe(src, seed) && Connected(src, seed, x))
    && (forall x, y :: x in visited && Linked(src, x, y) ==> y in visited || y in queue)
  }

  lemma WalkStarts(src: Sources, seed: RepoId)
    ensures WalkInv(src, seed, {}, [seed])
  {
    assert Joined(src, seed, seed, 0);
  }

  lemma WalkStep(dir: seq<RepoId>, src: Sources, seed: RepoId, visited: set<RepoId>, rest: seq<RepoId>,
                 id: RepoId, queue: seq<RepoId>)
    requires Listing(dir, src) && WalkInv(src, seed, visited, rest + [id])
    requires forall x :: x in queue <==> x in rest || (x in Neighbours(dir, src, id) && x !in visited + {id})
    ensures WalkInv(src, seed, visited + {id}, queue)
  {
    assert id in rest + [id];
    forall x | x in Neighbours(dir, src, id) ensures x in Universe(src, seed) && Connected(src, seed, x) {
      LinkConnects(src, seed, id, x);
    }
  }

  lemma WalkDone(src: Sources, seed: RepoId, visited: set<RepoId>)
    requires WalkInv(src, seed, visited, [])
    ensures forall x :: x in visited <==> Connected(src, seed, x)
  {
    forall x | Connected(src, seed, x) ensures x in visited {
      var n: nat :| Joined(src, seed, x, n);
      ClosedHoldsNetwork(src, visited, seed, x, n);
    }
  }

  /**
   The walk over the alternates relation that decides whose refs a collection must respect:
   exactly the network of `seed`, each member once, whatever cycles the relation has.
   */
  method NetworkAround(dir: seq<RepoId>, src: Sources, seed: RepoId) returns (network: seq<RepoId>)
    requires Listing(dir, src)
    ensures NoDup(network)
    ensures forall x :: x in network <==> Connected(src, seed, x)
  {
    var visited: set<RepoId> := {};
    var queue := [seed];
    WalkStarts(src, seed);
    while queue != []
      invariant WalkInv(src, seed, visited, queue)
      decreases |Universe(src, seed) - visited|, |queue|
    {
      hide *;
      var id, rest := queue[|queue| - 1], queue[..|queue| - 1];
      assert queue == rest + [id];
      if id in visited {
        WalkSkips(src, seed, visited, rest, id);
        queue := rest;
      } else {
        queue := PushUnvisited(rest, visited + {id}, Neighbours(dir, src, id));
        WalkStep(dir, src, seed, visited, rest, id, queue);
        WalkShrinks(src, seed, visited, rest, id);
        visited := visited + {id};
      }
    }
    WalkDone(src, seed, visited);
    network := Drain(visited);
  }

  lemma WalkSkips(src: Sources, seed: RepoId, visited: set<RepoId>, rest: seq<RepoId>, id: RepoId)
    requires WalkInv(src, seed, visited, rest + [id]) && id in visited
    ensures WalkInv(src, seed, visited, rest)
  {
    hide Connected, Universe, Linked;
    assert forall x :: x in rest + [id] <==> x in rest || x == id;
  }

  lemma WalkShrinks(src: Sources, seed: RepoId, visited: set<RepoId>, rest: seq<RepoId>, id: RepoId)
    requires WalkInv(src, seed, visited, rest + [id]) && id !in visited
    ensures |Universe(src, seed) - (visited + {id})| < |Universe(src, seed) - visited|
  {
    hide Connected, Universe, Linked;
    assert id in rest + [id];
    assert Universe(src, seed) - visited == Universe(src, seed) - (visited + {id}) + {id};
  }

  method Drain(s: set<RepoId>) returns (r: seq<RepoId>)
    ensures NoDup(r) && forall x :: x in r <==> x in s
  {
    r := [];
    var rest := s;
    while rest != {}
      invariant rest <= s && NoDup(r)
      invariant forall x :: x in r <==> x in s && x !in rest
    {
      var x :| x in rest;
      r, rest := r + [x], rest - {x};
    }
  }

  /** Queue every neighbour that has not been visited yet. */
  method PushUnvisited(queue: seq<RepoId>, visited: set<RepoId>, ids: seq<RepoId>) returns (r: seq<RepoId>)
    ensures forall x :: x in r <==> x in queue || (x in ids && x !in visited)
  {
    r := queue;
    for i := 0 to |ids|
      invariant forall x :: x in r <==> x in queue || (x in ids[..i] && x !in visited)
    {
      if ids[i] !in visited {
        r := r + [ids[i]];
      }
    }
  }

  lemma LinkConnects(src: Sources, seed: RepoId, id: RepoId, y: RepoId)
    requires Connected(src, seed, id) && Linked(src, id, y)
    ensures Connected(src, seed, y)
  {
    var n: nat :| Joined(src, seed, id, n);
    assert Joined(src, y, y, 0);
    assert Joined(src, id, y, 1);
    JoinedTransitive(src, seed, id, y, n, 1);
  }
}
