/**
 Dropping idle buckets. A limiter whose stale buckets are evicted at arbitrary moments is compared
 with one that never forgets a bucket, over whole histories of calls.
 */
module Eviction {
  import opened Base
  import opened TokenBucket

  datatype Op<K> = Call(key: K, now: real) | Evict(now: real)

  type Buckets<K> = map<K, Bucket>

  ghost predicate Refilling<K(!new)>(budget: K -> Budget) {
    forall k :: budget(k).rate > 0.0
  }

  /** The bucket that serves a call for `key`. */
  function Serving<K>(budget: K -> Budget, m: Buckets<K>, key: K, now: real): Bucket {
    OrFull(budget(key), Find(m, key), now)
  }

  /** One operation of either limiter of `TokenBucket`. */
  function Applied<K>(budget: K -> Budget, stale: real, m: Buckets<K>, op: Op<K>): Buckets<K> {
    match op
    case Call(key, now) => m[key := Charge(budget(key), Serving(budget, m, key, now), now)]
    case Evict(now) => Evicted(m, now, stale)
  }

  function Replayed<K>(budget: K -> Budget, stale: real, m: Buckets<K>, ops: seq<Op<K>>): Buckets<K>
    decreases |ops|
  {
    if ops == [] then m else Replayed(budget, stale, Applied(budget, stale, m, ops[0]), ops[1..])
  }

  /** The answers a history gets, retry values included. */
  ghost function Answers<K(!new)>(budget: K -> Budget, stale: real, m: Buckets<K>, ops: seq<Op<K>>): seq<Answer>
    requires Refilling(budget)
    decreases |ops|
  {
    if ops == [] then []
    else
      (if ops[0].Call? then [AnswerTo(budget(ops[0].key), Serving(budget, m, ops[0].key, ops[0].now), ops[0].now)] else [])
      + Answers(budget, stale, Applied(budget, stale, m, ops[0]), ops[1..])
  }

  /** The same history without its evictions. */
  function CallsOnly<K>(ops: seq<Op<K>>): seq<Op<K>> {
    if ops == [] then [] else (if ops[0].Call? then [ops[0]] else []) + CallsOnly(ops[1..])
  }

  ghost predicate InClockOrder<K>(from: real, ops: seq<Op<K>>)
    decreases |ops|
  {
    ops == [] || (from <= ops[0].now && InClockOrder(ops[0].now, ops[1..]))
  }

  ghost predicate Unobservable<K(!new)>(budget: K -> Budget, stale: real, ops: seq<Op<K>>)
    requires Refilling(budget)
  {
    Answers(budget, stale, map[], ops) == Answers(budget, stale, map[], CallsOnly(ops))
  }

  // ── one key ──────────────────────────────────────────────────────────

  /** By `now` the bucket would be refilled to the brim. */
  ghost predicate FullBy(b: Budget, k: Bucket, now: real) {
    k.tokens + Elapsed(k.last, now) * b.rate >= b.capacity as real
  }

  ghost predicate Usable(b: Budget, k: Option<Bucket>, now: real) {
    k.Some? ==> Sound(b, k.value) && k.value.last <= now
  }

  /** The two limiters hold the same bucket, or one dropped a bucket that is full again. */
  ghost predicate Agree(b: Budget, e: Option<Bucket>, f: Option<Bucket>, now: real) {
    e == f || (e.None? && f.Some? && FullBy(b, f.value, now))
  }

  lemma FullStaysFull(b: Budget, k: Bucket, now: real, later: real)
    requires b.rate > 0.0 && now <= later && FullBy(b, k, now)
    ensures FullBy(b, k, later)
  {
    LongerIsMore(Elapsed(k.last, now), Elapsed(k.last, later), b.rate);
  }

  lemma SameCharge(b: Budget, e: Option<Bucket>, f: Option<Bucket>, now: real)
    requires b.rate > 0.0 && Agree(b, e, f, now)
    ensures Charge(b, OrFull(b, e, now), now) == Charge(b, OrFull(b, f, now), now)
    ensures AnswerTo(b, OrFull(b, e, now), now) == AnswerTo(b, OrFull(b, f, now), now)
  {
    if e != f {
      assert Refill(b, OrFull(b, e, now), now) == b.capacity as real;
      assert Refill(b, OrFull(b, f, now), now) == b.capacity as real;
    }
  }

  lemma StaleIsFull(b: Budget, k: Bucket, now: real, stale: real)
    requires b.rate > 0.0 && Sound(b, k) && stale * b.rate >= b.capacity as real
    requires stale <= Elapsed(k.last, now)
    ensures FullBy(b, k, now)
  {
    LongerIsMore(stale, Elapsed(k.last, now), b.rate);
  }

  // ── enough time: eviction goes unnoticed ─────────────────────────────

  ghost predicate Related<K(!new)>(budget: K -> Budget, e: Buckets<K>, f: Buckets<K>, now: real) {
    forall k :: Usable(budget(k), Find(f, k), now) && Agree(budget(k), Find(e, k), Find(f, k), now)
  }

  ghost predicate Ample<K(!new)>(budget: K -> Budget, stale: real) {
    forall k :: stale * budget(k).rate >= budget(k).capacity as real
  }

  lemma CallKeepsRelated<K(!new)>(budget: K -> Budget, e: Buckets<K>, f: Buckets<K>, from: real, op: Op<K>, stale: real)
    requires Refilling(budget) && op.Call? && from <= op.now && Related(budget, e, f, from)
    ensures Related(budget, Applied(budget, stale, e, op), Applied(budget, stale, f, op), op.now)
    ensures AnswerTo(budget(op.key), Serving(budget, e, op.key, op.now), op.now)
         == AnswerTo(budget(op.key), Serving(budget, f, op.key, op.now), op.now)
  {
    var e', f' := Applied(budget, stale, e, op), Applied(budget, stale, f, op);
    forall k ensures Agree(budget(k), Find(e, k), Find(f, k), op.now) {
      assert Usable(budget(k), Find(f, k), from);
      if Find(e, k) != Find(f, k) {
        FullStaysFull(budget(k), f[k], from, op.now);
      }
    }
    SameCharge(budget(op.key), Find(e, op.key), Find(f, op.key), op.now);
    forall k ensures Usable(budget(k), Find(f', k), op.now) && Agree(budget(k), Find(e', k), Find(f', k), op.now) {
      assert Usable(budget(k), Find(f, k), from);
      if k == op.key {
        CallBalance(budget(k), Serving(budget, f, k, op.now), op.now);
      } else {
        assert Find(f', k) == Find(f, k) && Find(e', k) == Find(e, k);
      }
    }
  }

  lemma EvictKeepsRelated<K(!new)>(budget: K -> Budget, e: Buckets<K>, f: Buckets<K>, from: real, op: Op<K>, stale: real)
    requires Refilling(budget) && Ample(budget, stale) && op.Evict? && from <= op.now && Related(budget, e, f, from)
    ensures Related(budget, Applied(budget, stale, e, op), f, op.now)
  {
    var e' := Applied(budget, stale, e, op);
    forall k ensures Usable(budget(k), Find(f, k), op.now) && Agree(budget(k), Find(e', k), Find(f, k), op.now) {
      assert Usable(budget(k), Find(f, k), from) && Agree(budget(k), Find(e, k), Find(f, k), from);
      if Find(e, k) != Find(f, k) {
        FullStaysFull(budget(k), f[k], from, op.now);
      } else if k in e && k !in e' {
        StaleIsFull(budget(k), f[k], op.now, stale);
      }
    }
  }

  lemma {:induction false} EvictionIsSilent<K(!new)>(budget: K -> Budget, stale: real, e: Buckets<K>, f: Buckets<K>,
                                                     from: real, ops: seq<Op<K>>)
    requires Refilling(budget) && Ample(budget, stale) && InClockOrder(from, ops) && Related(budget, e, f, from)
    ensures Answers(budget, stale, e, ops) == Answers(budget, stale, f, CallsOnly(ops))
    decreases |ops|
  {
    if ops == [] {
    } else if ops[0].Call? {
      CallKeepsRelated(budget, e, f, from, ops[0], stale);
      var e', f' := Applied(budget, stale, e, ops[0]), Applied(budget, stale, f, ops[0]);
      EvictionIsSilent(budget, stale, e', f', ops[0].now, ops[1..]);
      assert CallsOnly(ops)[0] == ops[0] && CallsOnly(ops)[1..] == CallsOnly(ops[1..]);
    } else {
      EvictKeepsRelated(budget, e, f, from, ops[0], stale);
      EvictionIsSilent(budget, stale, Applied(budget, stale, e, ops[0]), f, ops[0].now, ops[1..]);
      assert CallsOnly(ops) == CallsOnly(ops[1..]);
    }
  }

  // ── too little time: a burst on each side of an eviction shows it ────

  function Burst<K>(key: K, now: real, n: nat): (ops: seq<Op<K>>)
    ensures |ops| == n && forall i :: 0 <= i < n ==> ops[i] == Call(key, now)
    decreases n
  {
    if n == 0 then [] else [Call(key, now)] + Burst(key, now, n - 1)
  }

  ghost predicate AllAdmitted(answers: seq<Answer>) {
    forall i :: 0 <= i < |answers| ==> answers[i] == Admitted
  }

  /** A bucket with `n` tokens admits a burst of `n`, and holds `n` fewer afterwards. */
  lemma {:induction false} BurstWithin<K(!new)>(budget: K -> Budget, stale: real, m: Buckets<K>, key: K, now: real, n: nat)
    requires Refilling(budget) && n > 0 && Refill(budget(key), Serving(budget, m, key, now), now) >= n as real
    ensures AllAdmitted(Answers(budget, stale, m, Burst(key, now, n)))
    ensures Replayed(budget, stale, m, Burst(key, now, n))
         == m[key := Bucket(Refill(budget(key), Serving(budget, m, key, now), now) - n as real, now)]
    decreases n
  {
    var m' := Applied(budget, stale, m, Call(key, now));
    assert Burst(key, now, n)[1..] == Burst(key, now, n - 1);
    if n > 1 {
      BurstWithin(budget, stale, m', key, now, n - 1);
    }
  }

  /** A bucket with fewer than `n` tokens rejects one of `n` calls. */
  lemma {:induction false} BurstBeyond<K(!new)>(budget: K -> Budget, stale: real, m: Buckets<K>, key: K, now: real, n: nat)
    requires Refilling(budget) && n > 0 && Refill(budget(key), Serving(budget, m, key, now), now) < n as real
    ensures !AllAdmitted(Answers(budget, stale, m, Burst(key, now, n)))
    decreases n
  {
    var m' := Applied(budget, stale, m, Call(key, now));
    var answers := Answers(budget, stale, m, Burst(key, now, n));
    assert Burst(key, now, n)[1..] == Burst(key, now, n - 1);
    if Admits(budget(key), Serving(budget, m, key, now), now) {
      BurstBeyond(budget, stale, m', key, now, n - 1);
      var rest := Answers(budget, stale, m', Burst(key, now, n - 1));
      var i :| 0 <= i < |rest| && rest[i] != Admitted;
      assert answers[i + 1] == rest[i];
    } else {
      assert answers[0] != Admitted;
    }
  }

  lemma {:induction false} AnswersJoin<K(!new)>(budget: K -> Budget, stale: real, m: Buckets<K>, a: seq<Op<K>>, b: seq<Op<K>>)
    requires Refilling(budget)
    ensures Answers(budget, stale, m, a + b)
         == Answers(budget, stale, m, a) + Answers(budget, stale, Replayed(budget, stale, m, a), b)
    decreases |a|
  {
    if a == [] {
      assert a + b == b;
    } else {
      assert (a + b)[1..] == a[1..] + b;
      AnswersJoin(budget, stale, Applied(budget, stale, m, a[0]), a[1..], b);
    }
  }

  lemma {:induction false} BurstThen<K>(key: K, now: real, n: nat, ops: seq<Op<K>>)
    ensures CallsOnly(Burst(key, now, n) + ops) == Burst(key, now, n) + CallsOnly(ops)
    ensures InClockOrder(now, ops) ==> InClockOrder(now, Burst(key, now, n) + ops)
    decreases n
  {
    if n == 0 {
      assert Burst(key, now, 0) + ops == ops;
    } else {
      assert (Burst(key, now, n) + ops)[1..] == Burst(key, now, n - 1) + ops;
      BurstThen(key, now, n - 1, ops);
    }
  }

  /** The history that gives a too eager eviction away. */
  function Probe<K>(key: K, stale: real, n: nat): seq<Op<K>> {
    Burst(key, 0.0, n) + ([Evict(stale)] + Burst(key, stale, n))
  }

  lemma ProbeShape<K>(key: K, stale: real, n: nat)
    requires stale >= 0.0
    ensures InClockOrder(0.0, Probe(key, stale, n))
    ensures CallsOnly(Probe(key, stale, n)) == Burst(key, 0.0, n) + Burst(key, stale, n)
  {
    var second := Burst(key, stale, n);
    BurstThen(key, stale, n, []);
    assert second + [] == second;
    var tail: seq<Op<K>> := [Evict(stale)] + second;
    assert tail[1..] == second;
    assert CallsOnly(tail) == [] + CallsOnly(second);
    assert InClockOrder(0.0, tail);
    BurstThen(key, 0.0, n, tail);
  }

  lemma EagerEvictionShows<K(!new)>(budget: K -> Budget, stale: real, key: K)
    requires Refilling(budget) && stale >= 0.0 && stale * budget(key).rate < budget(key).capacity as real
    ensures InClockOrder(0.0, Probe(key, stale, budget(key).capacity))
    ensures !Unobservable(budget, stale, Probe(key, stale, budget(key).capacity))
  {
    var b := budget(key);
    var n := b.capacity;
    Product(stale, b.rate);
    var first, second := Burst(key, 0.0, n), Burst(key, stale, n);
    var tail: seq<Op<K>> := [Evict(stale)] + second;
    ProbeShape(key, stale, n);
    BurstWithin(budget, stale, map[], key, 0.0, n);
    var drained: Buckets<K> := map[key := Bucket(0.0, 0.0)];
    assert Replayed(budget, stale, map[], first) == drained;
    AnswersJoin(budget, stale, map[], first, tail);
    AnswersJoin(budget, stale, map[], first, second);
    assert Applied(budget, stale, drained, Evict(stale)) == map[];
    assert tail[1..] == second;
    assert Answers(budget, stale, drained, tail) == [] + Answers(budget, stale, map[], second);
    BurstWithin(budget, stale, map[], key, stale, n);
    BurstBeyond(budget, stale, drained, key, stale, n);
    var answers := Answers(budget, stale, map[], first);
    TailsDiffer(answers, Answers(budget, stale, map[], second), Answers(budget, stale, drained, second));
  }

  lemma TailsDiffer<T>(a: seq<T>, b: seq<T>, c: seq<T>)
    requires b != c
    ensures a + b != a + c
  {
    assert (a + b)[|a|..] == b && (a + c)[|a|..] == c;
  }

  /**
   Exactly when forgetting stale buckets cannot be observed: when every budget refills from empty
   within the stale time. Then no clock-ordered history gets a different answer or retry value.
   */
  lemma EvictionUnobservableIff<K(!new)>(budget: K -> Budget, stale: real)
    requires Refilling(budget) && stale >= 0.0
    ensures (forall ops: seq<Op<K>> :: InClockOrder(0.0, ops) ==> Unobservable(budget, stale, ops)) <==> Ample(budget, stale)
  {
    if Ample(budget, stale) {
      forall ops: seq<Op<K>> | InClockOrder(0.0, ops) ensures Unobservable(budget, stale, ops) {
        EvictionIsSilent(budget, stale, map[], map[], 0.0, ops);
      }
    } else {
      var key :| stale * budget(key).rate < budget(key).capacity as real;
      EagerEvictionShows(budget, stale, key);
    }
  }

  const STALE_AFTER := 3600.0

  /** The configured budgets are far inside that condition. */
  lemma DefaultsAreAmple()
    ensures Refilling((k: (string, Class)) => BudgetOf(k.1)) && Ample((k: (string, Class)) => BudgetOf(k.1), STALE_AFTER)
    ensures Refilling((ip: string) => DEFAULT_UNAUTH) && Ample((ip: string) => DEFAULT_UNAUTH, STALE_AFTER)
    ensures forall ops: seq<Op<(string, Class)>> :: InClockOrder(0.0, ops) ==>
              Unobservable((k: (string, Class)) => BudgetOf(k.1), STALE_AFTER, ops)
    ensures forall ops: seq<Op<string>> :: InClockOrder(0.0, ops) ==>
              Unobservable((ip: string) => DEFAULT_UNAUTH, STALE_AFTER, ops)
  {
    forall c: Class ensures STALE_AFTER * BudgetOf(c).rate >= BudgetOf(c).capacity as real {
      match c
      case CreateClass => assert BudgetOf(c).rate == 10.0 / 60.0;
      case TokenClass => assert BudgetOf(c).rate == 2.0;
      case CommitClass =>
      case DefaultClass => assert BudgetOf(c).rate == 5.0;
    }
    EvictionUnobservableIff((k: (string, Class)) => BudgetOf(k.1), STALE_AFTER);
    EvictionUnobservableIff((ip: string) => DEFAULT_UNAUTH, STALE_AFTER);
  }
}
