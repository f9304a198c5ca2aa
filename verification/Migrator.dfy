/** Forward-only schema migrations: a version table per namespace and a loop over a fixed list. */
module Migrator {
  /** Version rows per namespace in insertion order, and every schema change that was executed. */
  datatype Db = Db(rows: map<string, seq<nat>>, changes: seq<(string, nat)>)

  function Rows(db: Db, ns: string): seq<nat> {
    if ns in db.rows then db.rows[ns] else []
  }

  /** The recorded high-water mark; zero for a namespace without rows. */
  function Highest(vs: seq<nat>): (h: nat)
    ensures forall i :: 0 <= i < |vs| ==> vs[i] <= h
    ensures vs != [] ==> h in vs
  {
    if vs == [] then 0
    else if |vs| == 1 then vs[0]
    else
      var rest := Highest(vs[1..]);
      if rest > vs[0] then rest else vs[0]
  }

  function Changed(db: Db, ns: string, v: nat): Db {
    db.(changes := db.changes + [(ns, v)])
  }

  function Recorded(db: Db, ns: string, v: nat): Db {
    db.(rows := db.rows[ns := Rows(db, ns) + [v]])
  }

  function Pending(ms: seq<nat>, current: nat): seq<nat> {
    if ms == [] then [] else (if ms[0] <= current then [] else [ms[0]]) + Pending(ms[1..], current)
  }

  /**
   Work through pending versions, at most `n` of them. A version that already has a row violates the
   primary key after its change was executed, and ends the run.
   */
  function Work(db: Db, ns: string, p: seq<nat>, n: nat): Db
    decreases |p|
  {
    if p == [] || n == 0 then db
    else if p[0] in Rows(db, ns) then Changed(db, ns, p[0])
    else Work(Recorded(Changed(db, ns, p[0]), ns, p[0]), ns, p[1..], n - 1)
  }

  /** A run that dies after completing `n` migrations. */
  function RunFor(db: Db, ns: string, ms: seq<nat>, n: nat): Db {
    Work(db, ns, Pending(ms, Highest(Rows(db, ns))), n)
  }

  function RunAll(db: Db, ns: string, ms: seq<nat>): Db {
    RunFor(db, ns, ms, |ms|)
  }

  /** The pending versions go through without a primary key violation. */
  predicate Completes(db: Db, ns: string, p: seq<nat>)
    decreases |p|
  {
    p == [] || (p[0] !in Rows(db, ns) && Completes(Recorded(Changed(db, ns, p[0]), ns, p[0]), ns, p[1..]))
  }

  lemma {:induction false} PendingLength(ms: seq<nat>, current: nat)
    ensures |Pending(ms, current)| <= |ms|
    ensures forall v :: v in Pending(ms, current) <==> v in ms && v > current
    decreases |ms|
  {
    if ms != [] {
      PendingLength(ms[1..], current);
    }
  }

  class Connection {
    var db: Db

    constructor (db: Db)
      ensures this.db == db
    {
      this.db := db;
    }

    method Run(ns: string, ms: seq<nat>) returns (ok: bool)
      modifies this
      ensures db == RunAll(old(db), ns, ms)
      ensures ok <==> Completes(old(db), ns, Pending(ms, Highest(Rows(old(db), ns))))
    {
      var current := Highest(Rows(db, ns));
      ghost var all, final := Completes(db, ns, Pending(ms, current)), RunAll(db, ns, ms);
      hide *;
      WholeList(db, ns, ms);
      for i := 0 to |ms|
        invariant all == Completes(db, ns, Pending(ms[i..], current))
        invariant final == Work(db, ns, Pending(ms[i..], current), |ms| - i)
      {
        PendingFrom(ms, i, current);
        if ms[i] <= current {
          EnoughWork(db, ns, Pending(ms[i + 1..], current), |ms| - i, |ms| - i - 1);
          continue;
        }
        FirstPending(db, ns, ms[i], Pending(ms[i + 1..], current), |ms| - i);
        var known := ms[i] in Rows(db, ns);
        db := Changed(db, ns, ms[i]);
        if known {
          return false;
        }
        db := Recorded(db, ns, ms[i]);
      }
      NothingPending(db, ns, ms, current);
      return true;
    }
  }

  lemma WholeList(db: Db, ns: string, ms: seq<nat>)
    ensures RunAll(db, ns, ms) == Work(db, ns, Pending(ms[0..], Highest(Rows(db, ns))), |ms|)
    ensures ms[0..] == ms
  {
    assert ms[0..] == ms;
  }

  lemma NothingPending(db: Db, ns: string, ms: seq<nat>, current: nat)
    ensures Completes(db, ns, Pending(ms[|ms|..], current)) && Work(db, ns, Pending(ms[|ms|..], current), 0) == db
  {
  }

  lemma PendingFrom(ms: seq<nat>, i: nat, current: nat)
    requires i < |ms|
    ensures Pending(ms[i..], current) ==
            if ms[i] <= current then Pending(ms[i + 1..], current) else [ms[i]] + Pending(ms[i + 1..], current)
    ensures |Pending(ms[i + 1..], current)| <= |ms| - i - 1
  {
    assert ms[i..][1..] == ms[i + 1..];
    PendingLength(ms[i + 1..], current);
  }

  lemma FirstPending(db: Db, ns: string, v: nat, rest: seq<nat>, n: nat)
    requires n > 0
    ensures v in Rows(db, ns) ==> !Completes(db, ns, [v] + rest) && Work(db, ns, [v] + rest, n) == Changed(db, ns, v)
    ensures v !in Rows(db, ns) ==>
              var db' := Recorded(Changed(db, ns, v), ns, v);
              && (Completes(db, ns, [v] + rest) <==> Completes(db', ns, rest))
              && Work(db, ns, [v] + rest, n) == Work(db', ns, rest, n - 1)
  {
    assert ([v] + rest)[1..] == rest;
  }

  lemma {:induction false} EnoughWork(db: Db, ns: string, p: seq<nat>, n: nat, k: nat)
    requires |p| <= n && |p| <= k
    ensures Work(db, ns, p, n) == Work(db, ns, p, k)
    decreases |p|
  {
    if p != [] && p[0] !in Rows(db, ns) {
      EnoughWork(Recorded(Changed(db, ns, p[0]), ns, p[0]), ns, p[1..], n - 1, k - 1);
    }
  }

  ghost predicate NewTo(p: seq<nat>, vs: seq<nat>) {
    forall x :: x in p ==> x !in vs
  }

  /** A run reports success exactly when no pending version is listed twice. */
  lemma {:induction false} CompletesIffDistinct(db: Db, ns: string, p: seq<nat>)
    requires NewTo(p, Rows(db, ns))
    ensures Completes(db, ns, p) <==> forall i, j :: 0 <= i < j < |p| ==> p[i] != p[j]
    decreases |p|
  {
    if p != [] {
      var db' := Recorded(Changed(db, ns, p[0]), ns, p[0]);
      assert p[0] in p;
      assert forall i :: 0 <= i < |p[1..]| ==> p[1..][i] == p[i + 1];
      if p[0] in p[1..] {
        SeenAgain(db', ns, p[1..], p[0]);
      } else {
        assert NewTo(p[1..], Rows(db', ns));
        CompletesIffDistinct(db', ns, p[1..]);
      }
    }
  }

  lemma {:induction false} SeenAgain(db: Db, ns: string, p: seq<nat>, v: nat)
    requires v in p && v in Rows(db, ns)
    ensures !Completes(db, ns, p)
    decreases |p|
  {
    if p[0] != v {
      SeenAgain(Recorded(Changed(db, ns, p[0]), ns, p[0]), ns, p[1..], v);
    }
  }

  // ── crash and resume ─────────────────────────────────────────────────

  ghost predicate Increasing(p: seq<nat>) {
    forall i, j :: 0 <= i < j < |p| ==> p[i] < p[j]
  }

  function Tagged(ns: string, p: seq<nat>): (r: seq<(string, nat)>)
    ensures |r| == |p| && forall i :: 0 <= i < |p| ==> r[i] == (ns, p[i])
  {
    if p == [] then [] else [(ns, p[0])] + Tagged(ns, p[1..])
  }

  function Extended(db: Db, ns: string, p: seq<nat>): Db {
    if p == [] then db else Db(db.rows[ns := Rows(db, ns) + p], db.changes + Tagged(ns, p))
  }

  lemma ExtendedTwice(db: Db, ns: string, p: seq<nat>, q: seq<nat>)
    ensures Extended(Extended(db, ns, p), ns, q) == Extended(db, ns, p + q)
  {
    assert Tagged(ns, p + q) == Tagged(ns, p) + Tagged(ns, q);
    if p == [] {
      assert p + q == q;
    } else if q == [] {
      assert p + q == p;
    } else {
      assert Rows(db, ns) + p + q == Rows(db, ns) + (p + q);
      assert db.changes + Tagged(ns, p) + Tagged(ns, q) == db.changes + Tagged(ns, p + q);
    }
  }

  ghost predicate Above(p: seq<nat>, vs: seq<nat>) {
    forall x, v :: x in p && v in vs ==> v < x
  }

  lemma OneStep(db: Db, ns: string, p: seq<nat>)
    requires p != [] && Increasing(p) && Above(p, Rows(db, ns))
    ensures var db' := Recorded(Changed(db, ns, p[0]), ns, p[0]);
            p[0] !in Rows(db, ns) && db' == Extended(db, ns, [p[0]]) && Increasing(p[1..]) && Above(p[1..], Rows(db', ns))
  {
    assert Tagged(ns, [p[0]]) == [(ns, p[0])];
    assert p[0] in p;
    assert p[0] !in Rows(db, ns);
    forall x, v | x in p[1..] && v in Rows(db, ns) + [p[0]] ensures v < x {
      var j :| 0 <= j < |p[1..]| && p[1..][j] == x;
      assert x in p;
    }
  }

  /** Increasing pending versions above the recorded ones are simply appended. */
  lemma {:induction false} WorkAppends(db: Db, ns: string, p: seq<nat>, n: nat)
    requires Increasing(p) && Above(p, Rows(db, ns))
    ensures Work(db, ns, p, n) == Extended(db, ns, if n <= |p| then p[..n] else p)
    decreases |p|
  {
    if p != [] && n > 0 {
      OneStep(db, ns, p);
      var rest := if n - 1 <= |p[1..]| then p[1..][..n - 1] else p[1..];
      WorkAppends(Recorded(Changed(db, ns, p[0]), ns, p[0]), ns, p[1..], n - 1);
      ExtendedTwice(db, ns, [p[0]], rest);
      assert [p[0]] + rest == if n <= |p| then p[..n] else p;
    }
  }

  lemma {:induction false} PendingAbove(ms: seq<nat>, low: nat, high: nat)
    requires low <= high
    ensures Pending(ms, high) == Pending(Pending(ms, low), high)
    decreases |ms|
  {
    if ms != [] {
      PendingAbove(ms[1..], low, high);
      var rest := Pending(ms[1..], low);
      if ms[0] > low {
        assert ([ms[0]] + rest)[1..] == rest;
        assert Pending(ms, low) == [ms[0]] + rest;
      } else {
        assert Pending(ms, low) == rest;
      }
    }
  }

  lemma {:induction false} PendingSuffix(p: seq<nat>, n: nat)
    requires 0 < n <= |p| && Increasing(p)
    ensures Pending(p, p[n - 1]) == p[n..]
    decreases |p|
  {
    if n == 1 {
      assert [p[0]] + p[1..] == p;
      AllAboveFirst(p[1..], p[0]);
    } else {
      PendingSuffix(p[1..], n - 1);
      assert p[1..][n - 1..] == p[n..];
    }
  }

  lemma AllAboveFirst(q: seq<nat>, v: nat)
    requires Increasing([v] + q)
    ensures Pending(q, v) == q
  {
    forall i | 0 <= i < |q| ensures q[i] > v {
      assert ([v] + q)[0] == v && ([v] + q)[i + 1] == q[i];
    }
    AllPending(q, v);
  }

  lemma {:induction false} AllPending(q: seq<nat>, v: nat)
    requires forall i :: 0 <= i < |q| ==> q[i] > v
    ensures Pending(q, v) == q
    decreases |q|
  {
    if q != [] {
      AllPending(q[1..], v);
    }
  }

  lemma HighestBounds(vs: seq<nat>)
    ensures forall v :: v in vs ==> v <= Highest(vs)
  {
  }

  lemma HighestIs(vs: seq<nat>, h: nat)
    requires h in vs && forall v :: v in vs ==> v <= h
    ensures Highest(vs) == h
  {
  }

  /** The mark after `n` increasing migrations is the last of them. */
  lemma MarkAfter(db: Db, ns: string, p: seq<nat>, n: nat)
    requires 0 < n <= |p| && Increasing(p) && Above(p, Rows(db, ns))
    ensures Highest(Rows(Extended(db, ns, p[..n]), ns)) == p[n - 1]
  {
    var vs := Rows(db, ns) + p[..n];
    assert vs[|vs| - 1] == p[n - 1];
    forall v | v in vs ensures v <= p[n - 1] {
      if v in p[..n] {
        var i :| 0 <= i < n && p[i] == v;
      } else {
        assert v in Rows(db, ns) && p[n - 1] in p;
      }
    }
    HighestIs(vs, p[n - 1]);
  }

  /** The state in which a resumed run starts, and what it still has to do. */
  lemma Remaining(db: Db, ns: string, ms: seq<nat>, k: nat)
    requires var p := Pending(ms, Highest(Rows(db, ns)));
             0 < k <= |p| && Increasing(p)
    ensures var p := Pending(ms, Highest(Rows(db, ns)));
            var mid := Extended(db, ns, p[..k]);
            Pending(ms, Highest(Rows(mid, ns))) == p[k..] && Increasing(p[k..]) && Above(p[k..], Rows(mid, ns))
  {
    var h := Highest(Rows(db, ns));
    var p := Pending(ms, h);
    var mid := Extended(db, ns, p[..k]);
    PendingLength(ms, h);
    MarkAfter(db, ns, p, k);
    assert p[k - 1] in p;
    PendingAbove(ms, h, p[k - 1]);
    PendingSuffix(p, k);
    PendingLength(ms, p[k - 1]);
    SuffixIsIncreasing(p, k);
  }

  lemma CompletedBy(db: Db, ns: string, ms: seq<nat>, n: nat)
    requires Increasing(Pending(ms, Highest(Rows(db, ns))))
    ensures var p := Pending(ms, Highest(Rows(db, ns)));
            RunFor(db, ns, ms, n) == Extended(db, ns, p[..if n <= |p| then n else |p|])
  {
    var p := Pending(ms, Highest(Rows(db, ns)));
    PendingLength(ms, Highest(Rows(db, ns)));
    assert p[..|p|] == p;
    WorkAppends(db, ns, p, n);
  }

  lemma ResumeIsSame(db: Db, ns: string, ms: seq<nat>, n: nat)
    requires Increasing(Pending(ms, Highest(Rows(db, ns))))
    ensures RunAll(RunFor(db, ns, ms, n), ns, ms) == RunAll(db, ns, ms)
  {
    var p := Pending(ms, Highest(Rows(db, ns)));
    var k := if n <= |p| then n else |p|;
    CompletedBy(db, ns, ms, n);
    CompletedBy(db, ns, ms, |ms|);
    PendingLength(ms, Highest(Rows(db, ns)));
    assert p[..|p|] == p;
    if k > 0 {
      ResumeFrom(db, ns, ms, k);
    } else {
      assert Extended(db, ns, p[..k]) == db;
    }
  }

  lemma ResumeFrom(db: Db, ns: string, ms: seq<nat>, k: nat)
    requires var p := Pending(ms, Highest(Rows(db, ns)));
             0 < k <= |p| && |p| <= |ms| && Increasing(p)
    ensures var p := Pending(ms, Highest(Rows(db, ns)));
            RunAll(Extended(db, ns, p[..k]), ns, ms) == Extended(db, ns, p)
  {
    var p := Pending(ms, Highest(Rows(db, ns)));
    Remaining(db, ns, ms, k);
    WorkAppends(Extended(db, ns, p[..k]), ns, p[k..], |ms|);
    ExtendedTwice(db, ns, p[..k], p[k..]);
    assert p[..k] + p[k..] == p;
  }

  /**
   Dying between a schema change and its version row: the resumed run executes that one change twice in
   a row and ends with the rows of an uninterrupted run.
   */
  lemma TornMigrationRunsTwice(db: Db, ns: string, ms: seq<nat>, k: nat)
    requires var p := Pending(ms, Highest(Rows(db, ns)));
             k < |p| && Increasing(p)
    ensures var p := Pending(ms, Highest(Rows(db, ns)));
            var torn := Changed(RunFor(db, ns, ms, k), ns, p[k]);
            RunAll(torn, ns, ms) == Db(RunAll(db, ns, ms).rows, db.changes + Tagged(ns, p[..k + 1] + p[k..]))
  {
    hide Work, Highest, Pending, Extended, Increasing, Above, Tagged;
    var p := Pending(ms, Highest(Rows(db, ns)));
    PendingLength(ms, Highest(Rows(db, ns)));
    CompletedBy(db, ns, ms, k);
    CompletedBy(db, ns, ms, |ms|);
    assert p[..|p|] == p;
    StillToDo(db, ns, ms, k);
    var torn := Changed(Extended(db, ns, p[..k]), ns, p[k]);
    assert Rows(torn, ns) == Rows(Extended(db, ns, p[..k]), ns);
    WorkAppends(torn, ns, p[k..], |ms|);
    TornFrom(db, ns, p, k);
  }

  lemma ExtendedChanges(db: Db, ns: string, p: seq<nat>)
    ensures Extended(db, ns, p).changes == db.changes + Tagged(ns, p)
  {
  }

  lemma TornFrom(db: Db, ns: string, p: seq<nat>, k: nat)
    requires k < |p|
    ensures Extended(Changed(Extended(db, ns, p[..k]), ns, p[k]), ns, p[k..]) ==
            Db(Extended(db, ns, p).rows, db.changes + Tagged(ns, p[..k + 1] + p[k..]))
  {
    hide Extended, Tagged;
    TornTags(ns, p, k);
    TornRows(db, ns, p, k);
    ExtendedChanges(db, ns, p[..k]);
    ExtendedChanges(Changed(Extended(db, ns, p[..k]), ns, p[k]), ns, p[k..]);
    var c, a, b, d := db.changes, Tagged(ns, p[..k]), [(ns, p[k])], Tagged(ns, p[k..]);
    assert c + a + b + d == c + (a + b + d);
  }

  lemma StillToDo(db: Db, ns: string, ms: seq<nat>, k: nat)
    requires var p := Pending(ms, Highest(Rows(db, ns)));
             k <= |p| && Increasing(p)
    ensures var p := Pending(ms, Highest(Rows(db, ns)));
            var mid := Extended(db, ns, p[..k]);
            Pending(ms, Highest(Rows(mid, ns))) == p[k..] && Increasing(p[k..]) && Above(p[k..], Rows(mid, ns))
  {
    hide Highest;
    if k > 0 {
      Remaining(db, ns, ms, k);
    } else {
      HighestBounds(Rows(db, ns));
      PendingLength(ms, Highest(Rows(db, ns)));
      assert Pending(ms, Highest(Rows(db, ns)))[0..] == Pending(ms, Highest(Rows(db, ns)));
    }
  }

  lemma TornTags(ns: string, p: seq<nat>, k: nat)
    requires k < |p|
    ensures Tagged(ns, p[..k + 1] + p[k..]) == Tagged(ns, p[..k]) + [(ns, p[k])] + Tagged(ns, p[k..])
  {
  }

  lemma TornRows(db: Db, ns: string, p: seq<nat>, k: nat)
    requires k < |p|
    ensures Extended(Changed(Extended(db, ns, p[..k]), ns, p[k]), ns, p[k..]).rows == Extended(db, ns, p).rows
  {
    assert p[..k] + p[k..] == p;
    ExtendedTwice(db, ns, p[..k], p[k..]);
    var mid := Extended(db, ns, p[..k]);
    assert Rows(Changed(mid, ns, p[k]), ns) == Rows(mid, ns);
  }

  lemma SuffixIsIncreasing(p: seq<nat>, k: nat)
    requires Increasing(p) && k <= |p|
    ensures Increasing(p[k..]) && Increasing(p[..k])
  {
  }

  // ── and when it is not ───────────────────────────────────────────────

  /** A run only appends changes, and only versions above the mark it started from. */
  lemma {:induction false} WorkOnlyAppends(db: Db, ns: string, p: seq<nat>, n: nat, i: nat)
    requires |db.changes| <= i < |Work(db, ns, p, n).changes|
    ensures db.changes <= Work(db, ns, p, n).changes
    ensures Work(db, ns, p, n).changes[i].1 in p
    decreases |p|
  {
    if p != [] && n > 0 && p[0] !in Rows(db, ns) {
      var db' := Recorded(Changed(db, ns, p[0]), ns, p[0]);
      if i > |db.changes| {
        WorkOnlyAppends(db', ns, p[1..], n - 1, i);
      } else {
        WorkPrefix(db', ns, p[1..], n - 1);
      }
    }
  }

  lemma {:induction false} WorkPrefix(db: Db, ns: string, p: seq<nat>, n: nat)
    ensures db.changes <= Work(db, ns, p, n).changes
    decreases |p|
  {
    if p != [] && n > 0 && p[0] !in Rows(db, ns) {
      WorkPrefix(Recorded(Changed(db, ns, p[0]), ns, p[0]), ns, p[1..], n - 1);
    }
  }

  /** Past an increasing prefix of length `k` the change executed next is version `p[k]`. */
  lemma {:induction false} NextChange(db: Db, ns: string, p: seq<nat>, k: nat, n: nat)
    requires k < |p| && k < n && Increasing(p[..k]) && Above(p[..k], Rows(db, ns))
    ensures |Work(db, ns, p, n).changes| > |db.changes| + k
    ensures Work(db, ns, p, n).changes[|db.changes| + k] == (ns, p[k])
    decreases k
  {
    if k == 0 {
      if p[0] !in Rows(db, ns) {
        WorkPrefix(Recorded(Changed(db, ns, p[0]), ns, p[0]), ns, p[1..], n - 1);
      }
    } else {
      OneStep(db, ns, p[..k]);
      assert p[..k][1..] == p[1..][..k - 1];
      NextChange(Recorded(Changed(db, ns, p[0]), ns, p[0]), ns, p[1..], k - 1, n - 1);
    }
  }

  lemma {:induction false} WorkOnPrefix(db: Db, ns: string, p: seq<nat>, k: nat)
    requires k <= |p| && Increasing(p[..k]) && Above(p[..k], Rows(db, ns))
    ensures Work(db, ns, p, k) == Extended(db, ns, p[..k])
    decreases k
  {
    if k > 0 {
      OneStep(db, ns, p[..k]);
      assert p[..k][1..] == p[1..][..k - 1];
      WorkOnPrefix(Recorded(Changed(db, ns, p[0]), ns, p[0]), ns, p[1..], k - 1);
      ExtendedTwice(db, ns, [p[0]], p[1..][..k - 1]);
      assert [p[0]] + p[1..][..k - 1] == p[..k];
    }
  }

  lemma {:induction false} FirstDescent(p: seq<nat>, n: nat) returns (k: nat)
    requires n <= |p| && !Increasing(p[..n])
    ensures 0 < k < n && Increasing(p[..k]) && p[k] <= p[k - 1]
    decreases n
  {
    if n > 0 && !Increasing(p[..n - 1]) {
      k := FirstDescent(p, n - 1);
    } else {
      k := n - 1;
      assert forall i :: 0 <= i < n - 1 ==> p[..n - 1][i] == p[..n][i];
      var i, j :| 0 <= i < j < n && p[..n][i] >= p[..n][j];
      assert j == n - 1;
      assert i < n - 2 ==> p[..n][i] < p[..n][n - 2];
    }
  }

  /** A crash just before a version that is not above its predecessor makes the resumed run skip it. */
  lemma DescentIsSkipped(db: Db, ns: string, ms: seq<nat>, k: nat)
    requires var p := Pending(ms, Highest(Rows(db, ns)));
             0 < k < |p| && Increasing(p[..k]) && p[k] <= p[k - 1]
    ensures RunAll(RunFor(db, ns, ms, k), ns, ms) != RunAll(db, ns, ms)
  {
    hide Work, Pending, Highest, Extended, Increasing;
    var p := Pending(ms, Highest(Rows(db, ns)));
    PendingLength(ms, Highest(Rows(db, ns)));
    forall i | 0 <= i < k ensures p[i] in p {
    }
    assert Above(p[..k], Rows(db, ns)) by {
      HighestBounds(Rows(db, ns));
    }
    WorkOnPrefix(db, ns, p, k);
    NextChange(db, ns, p, k, |ms|);
    SkippedOnResume(db, ns, ms, p[..k], p[k]);
  }

  lemma ResumedChangesAreAboveTheMark(mid: Db, ns: string, ms: seq<nat>, at: nat)
    requires |mid.changes| <= at < |RunAll(mid, ns, ms).changes|
    ensures RunAll(mid, ns, ms).changes[at].1 > Highest(Rows(mid, ns))
  {
    hide Work;
    PendingLength(ms, Highest(Rows(mid, ns)));
    WorkOnlyAppends(mid, ns, Pending(ms, Highest(Rows(mid, ns))), |ms|, at);
  }

  /** Resuming after `done` never executes a version that is not above the last of them. */
  lemma SkippedOnResume(db: Db, ns: string, ms: seq<nat>, done: seq<nat>, v: nat)
    requires done != [] && Increasing(done) && Above(done, Rows(db, ns)) && v <= done[|done| - 1]
    ensures var resumed := RunAll(Extended(db, ns, done), ns, ms).changes;
            |resumed| > |db.changes| + |done| ==> resumed[|db.changes| + |done|] != (ns, v)
  {
    hide RunAll;
    hide Highest;
    var mid := Extended(db, ns, done);
    assert done[..|done|] == done;
    MarkAfter(db, ns, done, |done|);
    var at := |db.changes| + |done|;
    assert |mid.changes| == at;
    if |RunAll(mid, ns, ms).changes| > at {
      ResumedChangesAreAboveTheMark(mid, ns, ms, at);
    }
  }

  /**
   Dying after any number of completed migrations and starting again ends where an uninterrupted run
   ends, exactly when the pending versions are listed in strictly increasing order.
   */
  lemma ResumeIff(db: Db, ns: string, ms: seq<nat>)
    ensures (forall n: nat :: RunAll(RunFor(db, ns, ms, n), ns, ms) == RunAll(db, ns, ms)) <==>
            Increasing(Pending(ms, Highest(Rows(db, ns))))
  {
    var p := Pending(ms, Highest(Rows(db, ns)));
    if Increasing(p) {
      forall n: nat ensures RunAll(RunFor(db, ns, ms, n), ns, ms) == RunAll(db, ns, ms) {
        ResumeIsSame(db, ns, ms, n);
      }
    } else {
      assert p[..|p|] == p;
      var k := FirstDescent(p, |p|);
      DescentIsSkipped(db, ns, ms, k);
    }
  }

  /** Namespaces share the table without disturbing each other. */
  lemma {:induction false} OtherNamespacesUntouched(db: Db, ns: string, p: seq<nat>, n: nat, other: string)
    requires other != ns
    ensures Rows(Work(db, ns, p, n), other) == Rows(db, other)
    decreases |p|
  {
    if p != [] && n > 0 && p[0] !in Rows(db, ns) {
      OtherNamespacesUntouched(Recorded(Changed(db, ns, p[0]), ns, p[0]), ns, p[1..], n - 1, other);
    }
  }
}
