/**
 Reachability in the immutable object graph. Object ids are content hashes, so the links
 of an object (tree and parents of a commit, entries of a tree) are a function of its id.
 */
module Reachability {

  /** `b` is `n` links away from `a`. */
  ghost predicate Steps<T(!new)>(links: T -> set<T>, a: T, b: T, n: nat)
  {
    if n == 0 then a == b else exists m :: m in links(a) && Steps(links, m, b, n - 1)
  }

  /** `b` belongs to the closure of `a`. */
  ghost predicate Reaches<T(!new)>(links: T -> set<T>, a: T, b: T)
  {
    exists n: nat :: Steps(links, a, b, n)
  }

  lemma ReachesSelf<T(!new)>(links: T -> set<T>, a: T)
    ensures Reaches(links, a, a)
  {
    assert Steps(links, a, a, 0);
  }

  lemma ReachesLink<T(!new)>(links: T -> set<T>, a: T, b: T)
    requires b in links(a)
    ensures Reaches(links, a, b)
  {
    assert Steps(links, b, b, 0);
    assert Steps(links, a, b, 1);
  }

  lemma {:induction false} StepsJoin<T(!new)>(links: T -> set<T>, a: T, b: T, c: T, n: nat, k: nat)
    requires Steps(links, a, b, n) && Steps(links, b, c, k)
    ensures Steps(links, a, c, n + k)
  {
    if n > 0 {
      var m :| m in links(a) && Steps(links, m, b, n - 1);
      StepsJoin(links, m, b, c, n - 1, k);
    }
  }

  lemma ReachesTransitive<T(!new)>(links: T -> set<T>, a: T, b: T, c: T)
    requires Reaches(links, a, b) && Reaches(links, b, c)
    ensures Reaches(links, a, c)
  {
    var n: nat :| Steps(links, a, b, n);
    var k: nat :| Steps(links, b, c, k);
    StepsJoin(links, a, b, c, n, k);
  }

  /** The closure of `a` is `a` itself and the closures of the objects it links to. */
  lemma ReachesUnfold<T(!new)>(links: T -> set<T>, a: T, c: T)
    requires Reaches(links, a, c) && a != c
    ensures exists m :: m in links(a) && Reaches(links, m, c)
  {
    var n: nat :| Steps(links, a, c, n);
    var m :| m in links(a) && Steps(links, m, c, n - 1);
    assert Reaches(links, m, c);
  }
}
