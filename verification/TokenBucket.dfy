/**
 Token buckets with lazy refill, as used per subject and per peer address. Token counts and clock
 readings are reals; floating-point rounding is not modelled.
 */
module TokenBucket {
  import opened Base

  /** Burst allowance and sustained tokens per second. */
  datatype Budget = Budget(capacity: nat, rate: real)

  datatype Bucket = Bucket(tokens: real, last: real)

  datatype Answer = Admitted | Rejected(retryAfter: nat)

  function PerMin(capacity: nat, perMin: nat): Budget {
    Budget(capacity, perMin as real / 60.0)
  }

  function Ceil(x: real): int {
    -((-x).Floor)
  }

  /** Saturating difference of two clock readings. */
  function Elapsed(last: real, now: real): real {
    if now > last then now - last else 0.0
  }

  function Refill(b: Budget, k: Bucket, now: real): real {
    var t := k.tokens + Elapsed(k.last, now) * b.rate;
    if t < b.capacity as real then t else b.capacity as real
  }

  /** The bucket that serves a call: a fresh one is full. */
  function OrFull(b: Budget, k: Option<Bucket>, now: real): Bucket {
    match k
    case Some(bucket) => bucket
    case None => Bucket(b.capacity as real, now)
  }

  /** Whole seconds until the missing part of a token has been refilled; at least one. */
  function RetryAfter(b: Budget, tokens: real): nat
    requires b.rate > 0.0
  {
    var wait := Ceil((1.0 - tokens) / b.rate);
    if wait < 1 then 1 else wait
  }

  /** The bucket after a call. */
  function Charge(b: Budget, k: Bucket, now: real): Bucket {
    var t := Refill(b, k, now);
    Bucket(if t < 1.0 then t else t - 1.0, now)
  }

  predicate Admits(b: Budget, k: Bucket, now: real) {
    Refill(b, k, now) >= 1.0
  }

  function AnswerTo(b: Budget, k: Bucket, now: real): Answer
    requires b.rate > 0.0
  {
    if Admits(b, k, now) then Admitted else Rejected(RetryAfter(b, Refill(b, k, now)))
  }

  function Evicted<K>(m: map<K, Bucket>, now: real, staleAfter: real): map<K, Bucket> {
    map k | k in m && Elapsed(m[k].last, now) < staleAfter :: m[k]
  }

  // ── the two limiters ─────────────────────────────────────────────────

  datatype Class = CreateClass | TokenClass | CommitClass | DefaultClass

  datatype Principal = Admin | User(subject: string)

  const DEFAULT_CREATE := PerMin(20, 10)
  const DEFAULT_TOKEN := PerMin(120, 120)
  const DEFAULT_COMMIT := Budget(600, 10.0)
  const DEFAULT_DEFAULT := PerMin(300, 300)
  const DEFAULT_UNAUTH := Budget(60, 2.0)

  function BudgetOf(c: Class): (b: Budget)
    ensures b.rate > 0.0 && b.capacity >= 1
  {
    match c
    case CreateClass => DEFAULT_CREATE
    case TokenClass => DEFAULT_TOKEN
    case CommitClass => DEFAULT_COMMIT
    case DefaultClass => DEFAULT_DEFAULT
  }

  /** Per-subject limiter; administrators are exempt. */
  class RateLimiter {
    var buckets: map<(string, Class), Bucket>

    constructor ()
      ensures buckets == map[]
    {
      buckets := map[];
    }

    method Check(principal: Principal, c: Class, now: real) returns (a: Answer)
      modifies this
      ensures principal.Admin? ==> a == Admitted && buckets == old(buckets)
      ensures principal.User? ==>
                var key := (principal.subject, c);
                var k := OrFull(BudgetOf(c), Find(old(buckets), key), now);
                a == AnswerTo(BudgetOf(c), k, now) && buckets == old(buckets)[key := Charge(BudgetOf(c), k, now)]
    {
      if principal.Admin? {
        return Admitted;
      }
      var budget := BudgetOf(c);
      var key := (principal.subject, c);
      var entry := if key in buckets then buckets[key] else Bucket(budget.capacity as real, now);
      var tokens := Refill(budget, entry, now);
      if tokens < 1.0 {
        buckets := buckets[key := Bucket(tokens, now)];
        var wait := Ceil((1.0 - tokens) / budget.rate);
        return Rejected(if wait < 1 then 1 else wait);
      }
      buckets := buckets[key := Bucket(tokens - 1.0, now)];
      return Admitted;
    }

    /** What goes is what was last touched at least `staleAfter` ago; nothing that stays is changed. */
    method EvictStale(now: real, staleAfter: real)
      modifies this
      ensures forall k :: k in buckets ==> k in old(buckets) && buckets[k] == old(buckets)[k]
      ensures forall k :: k in old(buckets) && k !in buckets ==> Elapsed(old(buckets)[k].last, now) >= staleAfter
      ensures forall k :: k in buckets ==> Elapsed(buckets[k].last, now) < staleAfter
      ensures buckets == Evicted(old(buckets), now, staleAfter)
    {
      var todo := buckets.Keys;
      while todo != {}
        invariant todo <= buckets.Keys <= old(buckets).Keys
        invariant forall k :: k in buckets ==> buckets[k] == old(buckets)[k]
        invariant forall k :: k in old(buckets) && k !in todo ==> (k in buckets <==> Elapsed(old(buckets)[k].last, now) < staleAfter)
        decreases |todo|
      {
        var k :| k in todo;
        todo := todo - {k};
        if Elapsed(buckets[k].last, now) >= staleAfter {
          buckets := buckets - {k};
        }
      }
    }
  }

  /** Per-address limiter of the unauthenticated routes: one budget for every key. */
  class IpRateLimiter {
    var buckets: map<string, Bucket>

    constructor ()
      ensures buckets == map[]
    {
      buckets := map[];
    }

    method Check(ip: string, now: real) returns (a: Answer)
      modifies this
      ensures var k := OrFull(DEFAULT_UNAUTH, Find(old(buckets), ip), now);
              a == AnswerTo(DEFAULT_UNAUTH, k, now) && buckets == old(buckets)[ip := Charge(DEFAULT_UNAUTH, k, now)]
    {
      var entry := if ip in buckets then buckets[ip] else Bucket(DEFAULT_UNAUTH.capacity as real, now);
      var tokens := Refill(DEFAULT_UNAUTH, entry, now);
      if tokens < 1.0 {
        buckets := buckets[ip := Bucket(tokens, now)];
        var wait := Ceil((1.0 - tokens) / DEFAULT_UNAUTH.rate);
        return Rejected(if wait < 1 then 1 else wait);
      }
      buckets := buckets[ip := Bucket(tokens - 1.0, now)];
      return Admitted;
    }

    /** What goes is what was last touched at least `staleAfter` ago; nothing that stays is changed. */
    method EvictStale(now: real, staleAfter: real)
      modifies this
      ensures forall k :: k in buckets ==> k in old(buckets) && buckets[k] == old(buckets)[k]
      ensures forall k :: k in old(buckets) && k !in buckets ==> Elapsed(old(buckets)[k].last, now) >= staleAfter
      ensures forall k :: k in buckets ==> Elapsed(buckets[k].last, now) < staleAfter
      ensures buckets == Evicted(old(buckets), now, staleAfter)
    {
      var todo := buckets.Keys;
      while todo != {}
        invariant todo <= buckets.Keys <= old(buckets).Keys
        invariant forall k :: k in buckets ==> buckets[k] == old(buckets)[k]
        invariant forall k :: k in old(buckets) && k !in todo ==> (k in buckets <==> Elapsed(old(buckets)[k].last, now) < staleAfter)
        decreases |todo|
      {
        var k :| k in todo;
        todo := todo - {k};
        if Elapsed(buckets[k].last, now) >= staleAfter {
          buckets := buckets - {k};
        }
      }
    }
  }

  function Find<K, V>(m: map<K, V>, k: K): Option<V> {
    if k in m then Some(m[k]) else None
  }

  // ── runs of calls on one key ─────────────────────────────────────────

  ghost predicate Sound(b: Budget, k: Bucket) {
    0.0 <= k.tokens <= b.capacity as real
  }

  function BucketAfter(b: Budget, k: Bucket, ts: seq<real>): Bucket
    decreases |ts|
  {
    if ts == [] then k else BucketAfter(b, Charge(b, k, ts[0]), ts[1..])
  }

  /** Which calls of a run are admitted. */
  function Admissions(b: Budget, k: Bucket, ts: seq<real>): (r: seq<bool>)
    ensures |r| == |ts|
    decreases |ts|
  {
    if ts == [] then [] else [Admits(b, k, ts[0])] + Admissions(b, Charge(b, k, ts[0]), ts[1..])
  }

  function Count(admissions: seq<bool>): nat {
    if admissions == [] then 0 else (if admissions[0] then 1 else 0) + Count(admissions[1..])
  }

  /** Clock movement forward along a run of readings. */
  function Travel(from: real, ts: seq<real>): (r: real)
    ensures r >= 0.0
    decreases |ts|
  {
    if ts == [] then 0.0 else Elapsed(from, ts[0]) + Travel(ts[0], ts[1..])
  }

  ghost predicate NonDecreasing(from: real, ts: seq<real>)
    decreases |ts|
  {
    ts == [] || (from <= ts[0] && NonDecreasing(ts[0], ts[1..]))
  }

  lemma Product(x: real, y: real)
    requires x >= 0.0 && y >= 0.0
    ensures x * y >= 0.0
  {
  }

  function Spent(admitted: bool): real {
    if admitted then 1.0 else 0.0
  }

  /** A call spends only what the bucket held or was refilled with, and never more than the capacity. */
  lemma CallBalance(b: Budget, k: Bucket, now: real)
    requires b.rate > 0.0 && Sound(b, k)
    ensures Sound(b, Charge(b, k, now))
    ensures var left := Charge(b, k, now).tokens + Spent(Admits(b, k, now));
            left <= k.tokens + Elapsed(k.last, now) * b.rate && left <= b.capacity as real
  {
    Product(Elapsed(k.last, now), b.rate);
  }

  lemma Distribute(x: real, y: real, z: real)
    ensures (x + y) * z == x * z + y * z
  {
  }

  /** Tokens gained along a run of readings. */
  function Gain(rate: real, from: real, ts: seq<real>): real
    decreases |ts|
  {
    if ts == [] then 0.0 else Elapsed(from, ts[0]) * rate + Gain(rate, ts[0], ts[1..])
  }

  lemma {:induction false} GainIsTravel(rate: real, from: real, ts: seq<real>)
    ensures Gain(rate, from, ts) == Travel(from, ts) * rate
    decreases |ts|
  {
    if ts != [] {
      GainIsTravel(rate, ts[0], ts[1..]);
      Distribute(Elapsed(from, ts[0]), Travel(ts[0], ts[1..]), rate);
    }
  }

  /** The potential argument: a run admits no more than the tokens it starts with and gains. */
  lemma {:induction false} AdmittedBound(b: Budget, k: Bucket, ts: seq<real>)
    requires b.rate > 0.0 && Sound(b, k)
    ensures Count(Admissions(b, k, ts)) as real <= k.tokens + Gain(b.rate, k.last, ts)
    decreases |ts|
  {
    hide Charge, Admits, Sound;
    if ts == [] {
      SoundTokens(b, k);
    } else {
      CallBalance(b, k, ts[0]);
      AdmittedBound(b, Charge(b, k, ts[0]), ts[1..]);
      CountFirst(Admits(b, k, ts[0]), Admissions(b, Charge(b, k, ts[0]), ts[1..]));
      ChargeReads(b, k, ts[0]);
    }
  }

  lemma SoundTokens(b: Budget, k: Bucket)
    requires Sound(b, k)
    ensures k.tokens >= 0.0
  {
  }

  lemma ChargeReads(b: Budget, k: Bucket, now: real)
    ensures Charge(b, k, now).last == now
  {
  }

  lemma CountFirst(admitted: bool, rest: seq<bool>)
    ensures Count([admitted] + rest) as real == Spent(admitted) + Count(rest) as real
  {
    assert ([admitted] + rest)[1..] == rest;
  }

  /** Whatever state the bucket is in, a run admits at most the capacity and the gain after its first call. */
  lemma AdmittedFromAnyState(b: Budget, k: Bucket, ts: seq<real>)
    requires b.rate > 0.0 && Sound(b, k) && ts != []
    ensures Count(Admissions(b, k, ts)) as real <= b.capacity as real + Gain(b.rate, ts[0], ts[1..])
  {
    CallBalance(b, k, ts[0]);
    AdmittedBound(b, Charge(b, k, ts[0]), ts[1..]);
  }

  lemma {:induction false} TravelNonDecreasing(from: real, ts: seq<real>)
    requires NonDecreasing(from, ts)
    ensures ts != [] ==> Travel(from, ts) == ts[|ts| - 1] - from
    decreases |ts|
  {
    if |ts| > 1 {
      TravelNonDecreasing(ts[0], ts[1..]);
    }
  }

  lemma {:induction false} AdmissionsSplit(b: Budget, k: Bucket, ts: seq<real>, i: nat)
    requires b.rate > 0.0 && Sound(b, k) && i <= |ts|
    ensures Sound(b, BucketAfter(b, k, ts[..i]))
    ensures Admissions(b, k, ts)[i..] == Admissions(b, BucketAfter(b, k, ts[..i]), ts[i..])
    decreases i
  {
    if i > 0 {
      CallBalance(b, k, ts[0]);
      AdmissionsSplit(b, Charge(b, k, ts[0]), ts[1..], i - 1);
      assert ts[..i][1..] == ts[1..][..i - 1] && ts[1..][i - 1..] == ts[i..];
    }
  }

  lemma {:induction false} AdmissionsPrefix(b: Budget, k: Bucket, ts: seq<real>, j: nat)
    requires b.rate > 0.0 && j <= |ts|
    ensures Admissions(b, k, ts)[..j] == Admissions(b, k, ts[..j])
    decreases j
  {
    if j > 0 {
      AdmissionsPrefix(b, Charge(b, k, ts[0]), ts[1..], j - 1);
      assert ts[..j][1..] == ts[1..][..j - 1];
    }
  }

  /**
   The bound over every window, whatever order the clock readings reach the bucket in: calls `i` to
   `j` admit at most the capacity plus the refill for the forward clock movement among them.
   */
  lemma WindowBound(b: Budget, k: Bucket, ts: seq<real>, i: nat, j: nat)
    requires b.rate > 0.0 && Sound(b, k) && i < j <= |ts|
    ensures Count(Admissions(b, k, ts)[i..j]) as real <= b.capacity as real + Travel(ts[i], ts[i + 1..j]) * b.rate
  {
    hide *;
    var admitted := Count(Admissions(b, k, ts)[i..j]) as real;
    var gain := Gain(b.rate, ts[i], ts[i + 1..j]);
    assert admitted <= b.capacity as real + gain by {
      WindowGain(b, k, ts, i, j);
    }
    GainIsTravel(b.rate, ts[i], ts[i + 1..j]);
  }

  lemma WindowGain(b: Budget, k: Bucket, ts: seq<real>, i: nat, j: nat)
    requires b.rate > 0.0 && Sound(b, k) && i < j <= |ts|
    ensures Count(Admissions(b, k, ts)[i..j]) as real <= b.capacity as real + Gain(b.rate, ts[i], ts[i + 1..j])
  {
    AdmissionsWindow(b, k, ts, i, j);
    AdmittedFromAnyState(b, BucketAfter(b, k, ts[..i]), ts[i..j]);
    assert ts[i..j][1..] == ts[i + 1..j];
  }

  lemma AdmissionsWindow(b: Budget, k: Bucket, ts: seq<real>, i: nat, j: nat)
    requires b.rate > 0.0 && Sound(b, k) && i <= j <= |ts|
    ensures Sound(b, BucketAfter(b, k, ts[..i]))
    ensures Admissions(b, k, ts)[i..j] == Admissions(b, BucketAfter(b, k, ts[..i]), ts[i..j])
  {
    AdmissionsSplit(b, k, ts, i);
    AdmissionsPrefix(b, BucketAfter(b, k, ts[..i]), ts[i..], j - i);
    assert ts[i..][..j - i] == ts[i..j];
    assert Admissions(b, k, ts)[i..j] == Admissions(b, k, ts)[i..][..j - i];
  }

  lemma {:induction false} NonDecreasingSlice(from: real, ts: seq<real>, i: nat, j: nat)
    requires NonDecreasing(from, ts) && i < j <= |ts|
    ensures NonDecreasing(ts[i], ts[i + 1..j])
    decreases j
  {
    if i > 0 {
      NonDecreasingSlice(ts[0], ts[1..], i - 1, j - 1);
      assert ts[1..][i..j - 1] == ts[i + 1..j];
    } else if j > 1 {
      NonDecreasingSlice(ts[0], ts[1..], 0, j - 1);
      assert ts[1..][1..j - 1] == ts[1..j][1..];
    }
  }

  /** With readings in clock order, a window of length `len` admits at most capacity + rate * len. */
  lemma WindowBoundInClockOrder(b: Budget, k: Bucket, ts: seq<real>, i: nat, j: nat, len: real)
    requires b.rate > 0.0 && Sound(b, k) && i < j <= |ts|
    requires NonDecreasing(k.last, ts) && ts[j - 1] - ts[i] <= len
    ensures Count(Admissions(b, k, ts)[i..j]) as real <= b.capacity as real + b.rate * len
  {
    hide *;
    var admitted := Count(Admissions(b, k, ts)[i..j]) as real;
    var travel := Travel(ts[i], ts[i + 1..j]);
    assert admitted <= b.capacity as real + travel * b.rate by {
      WindowBound(b, k, ts, i, j);
    }
    assert travel <= len by {
      TravelWithin(k.last, ts, i, j);
    }
    LongerIsMore(travel, len, b.rate);
  }

  lemma TravelWithin(from: real, ts: seq<real>, i: nat, j: nat)
    requires NonDecreasing(from, ts) && i < j <= |ts|
    ensures Travel(ts[i], ts[i + 1..j]) == ts[j - 1] - ts[i]
  {
    NonDecreasingSlice(from, ts, i, j);
    TravelNonDecreasing(ts[i], ts[i + 1..j]);
    assert j > i + 1 ==> ts[i + 1..j][j - i - 2] == ts[j - 1];
  }

  lemma LongerIsMore(x: real, y: real, rate: real)
    requires x <= y && rate > 0.0
    ensures x * rate <= rate * y
  {
  }

  /** Below one token and with room for one, a run that gains the missing part admits some call. */
  lemma {:induction false} GainAdmitsOne(b: Budget, k: Bucket, ts: seq<real>)
    requires b.rate > 0.0 && b.capacity == 1 && 0.0 <= k.tokens < 1.0
    requires k.tokens + Gain(b.rate, k.last, ts) >= 1.0
    ensures Count(Admissions(b, k, ts)) >= 1
    decreases |ts|
  {
    var k' := Charge(b, k, ts[0]);
    var rest := Admissions(b, k', ts[1..]);
    CountFirst(Admits(b, k, ts[0]), rest);
    if !Admits(b, k, ts[0]) {
      Product(Elapsed(k.last, ts[0]), b.rate);
      GainAdmitsOne(b, k', ts[1..]);
    }
  }

  ghost predicate WithinBound(ts: seq<real>, len: real, b: Budget, k: Bucket)
    requires b.rate > 0.0
  {
    Count(Admissions(b, k, ts)) as real <= b.capacity as real + b.rate * len
  }

  /** A budget that earns exactly one token over the travel of the run admits the first call and another. */
  lemma OneTokenOverTheTravel(ts: seq<real>, rate: real)
    requires ts != [] && rate > 0.0 && Travel(ts[0], ts[1..]) * rate == 1.0
    ensures Count(Admissions(Budget(1, rate), Bucket(1.0, ts[0]), ts)) >= 2
  {
    hide Travel, Gain;
    var b, k := Budget(1, rate), Bucket(1.0, ts[0]);
    var k' := Charge(b, k, ts[0]);
    assert Admits(b, k, ts[0]) && k' == Bucket(0.0, ts[0]);
    GainIsTravel(rate, ts[0], ts[1..]);
    GainAdmitsOne(b, k', ts[1..]);
    CountFirst(true, Admissions(b, k', ts[1..]));
  }

  lemma LongTravelBreaksTheBound(ts: seq<real>, len: real)
    requires ts != [] && 0.0 <= len < Travel(ts[0], ts[1..])
    ensures exists b: Budget, k: Bucket :: b.rate > 0.0 && Sound(b, k) && !WithinBound(ts, len, b, k)
  {
    var travel := Travel(ts[0], ts[1..]);
    var rate := OneOver(travel);
    OneTokenOverTheTravel(ts, rate);
    hide *;
    var b, k := Budget(1, rate), Bucket(1.0, ts[0]);
    TwoIsTooMany(ts, b, k, len, travel);
    FullIsSound(b, ts[0]);
  }

  /** The reciprocal of a positive number. */
  function OneOver(x: real): (y: real)
    requires x > 0.0
    ensures y > 0.0 && x * y == 1.0
  {
    1.0 / x
  }

  lemma FullIsSound(b: Budget, now: real)
    requires b.capacity == 1
    ensures Sound(b, Bucket(1.0, now))
  {
  }

  lemma TwoIsTooMany(ts: seq<real>, b: Budget, k: Bucket, len: real, travel: real)
    requires b.capacity == 1 && b.rate > 0.0 && travel * b.rate == 1.0 && len < travel
    requires Count(Admissions(b, k, ts)) >= 2
    ensures !WithinBound(ts, len, b, k)
  {
    hide Admissions, Count;
    BeyondBound(Count(Admissions(b, k, ts)), b.capacity, b.rate, len, travel);
  }

  lemma BeyondBound(n: nat, capacity: nat, rate: real, len: real, travel: real)
    requires n >= 2 && capacity == 1 && rate > 0.0 && travel * rate == 1.0 && len < travel
    ensures !(n as real <= capacity as real + rate * len)
  {
    StrictlyMore(len, travel, rate);
    var spent := len * rate;
    assert spent == rate * len;
    assert spent < 1.0 && n as real >= 2.0 && capacity as real == 1.0;
  }

  lemma RoomForAll(ts: seq<real>, b: Budget, k: Bucket, len: real, travel: real)
    requires b.rate > 0.0 && travel <= len && Count(Admissions(b, k, ts)) as real <= b.capacity as real + travel * b.rate
    ensures WithinBound(ts, len, b, k)
  {
    hide Admissions, Count;
    WithinNumbers(Count(Admissions(b, k, ts)), b.capacity, b.rate, len, travel);
  }

  lemma WithinNumbers(n: nat, capacity: nat, rate: real, len: real, travel: real)
    requires rate > 0.0 && travel <= len && n as real <= capacity as real + travel * rate
    ensures n as real <= capacity as real + rate * len
  {
    LongerIsMore(travel, len, rate);
  }

  lemma ShortTravelKeepsTheBound(ts: seq<real>, len: real, b: Budget, k: Bucket)
    requires ts != [] && Travel(ts[0], ts[1..]) <= len && b.rate > 0.0 && Sound(b, k)
    ensures WithinBound(ts, len, b, k)
  {
    hide *;
    AdmittedFromAnyState(b, k, ts);
    GainIsTravel(b.rate, ts[0], ts[1..]);
    RoomForAll(ts, b, k, len, Travel(ts[0], ts[1..]));
  }

  /**
   The exact measure of a window. Whatever the budget and the bucket, a run of calls admits at most
   capacity + rate * len, if and only if the clock moves forward by at most `len` in all along the
   readings. Readings in clock order move forward by their span; a late reading adds to the travel.
   */
  lemma BoundHoldsIffTravelWithin(ts: seq<real>, len: real)
    requires ts != [] && len >= 0.0
    ensures (forall b: Budget, k: Bucket :: b.rate > 0.0 && Sound(b, k) ==> WithinBound(ts, len, b, k))
            <==> Travel(ts[0], ts[1..]) <= len
  {
    if Travel(ts[0], ts[1..]) <= len {
      forall b: Budget, k: Bucket | b.rate > 0.0 && Sound(b, k) ensures WithinBound(ts, len, b, k) {
        ShortTravelKeepsTheBound(ts, len, b, k);
      }
    } else {
      LongTravelBreaksTheBound(ts, len);
    }
  }

  /**
   So clock order matters: the reading is taken before the bucket is locked, and readings that arrive
   late can travel further than the second they all lie in.
   */
  lemma LateReadingsTravelFurther()
    ensures var ts := [0.0, 1.0, 0.0, 1.0];
            !forall b: Budget, k: Bucket :: b.rate > 0.0 && Sound(b, k) ==> WithinBound(ts, 1.0, b, k)
  {
    var ts, t1, t2, t3 := [0.0, 1.0, 0.0, 1.0], [1.0, 0.0, 1.0], [0.0, 1.0], [1.0];
    assert ts[1..] == t1 && t1[1..] == t2 && t2[1..] == t3 && t3[1..] == [];
    assert Travel(0.0, t3) == 1.0 && Travel(1.0, t2) == 1.0 && Travel(0.0, t1) == 2.0;
    BoundHoldsIffTravelWithin(ts, 1.0);
  }

  // ── the retry hint ───────────────────────────────────────────────────

  /** A rejected call leaves the bucket exactly refilled, so the next refill picks up where it left. */
  lemma RefillInTwo(b: Budget, k: Bucket, mid: real, now: real)
    requires b.rate > 0.0 && Sound(b, k) && k.last <= mid <= now && !Admits(b, k, mid)
    ensures Refill(b, Charge(b, k, mid), now) == Refill(b, k, now)
  {
    Distribute(mid - k.last, now - mid, b.rate);
    Product(now - mid, b.rate);
  }

  /** Refilling in pieces, at calls that are all turned away, equals refilling once. */
  lemma {:induction false} LazyRefillEqualsOne(b: Budget, k: Bucket, ts: seq<real>, now: real)
    requires b.rate > 0.0 && Sound(b, k) && NonDecreasing(k.last, ts + [now])
    requires forall i :: 0 <= i < |ts| ==> !Admissions(b, k, ts)[i]
    ensures Refill(b, BucketAfter(b, k, ts), now) == Refill(b, k, now)
    decreases |ts|
  {
    if ts == [] {
    } else {
      var k' := Charge(b, k, ts[0]);
      assert (ts + [now])[1..] == ts[1..] + [now];
      assert Admissions(b, k, ts) == [Admits(b, k, ts[0])] + Admissions(b, k', ts[1..]);
      assert !Admissions(b, k, ts)[0];
      CallBalance(b, k, ts[0]);
      assert forall i :: 0 <= i < |ts[1..]| ==> Admissions(b, k', ts[1..])[i] == Admissions(b, k, ts)[i + 1];
      LastIsLargest(ts[0], ts[1..], now);
      LazyRefillEqualsOne(b, k', ts[1..], now);
      RefillInTwo(b, k, ts[0], now);
    }
  }

  lemma {:induction false} LastIsLargest(from: real, ts: seq<real>, now: real)
    requires NonDecreasing(from, ts + [now])
    ensures from <= now
    decreases |ts|
  {
    if ts == [] {
    } else {
      assert (ts + [now])[1..] == ts[1..] + [now];
      LastIsLargest(ts[0], ts[1..], now);
    }
  }

  /** Rounding up: `m` covers `x` exactly when it covers its ceiling. */
  lemma CeilCovers(x: real, m: int)
    ensures x <= m as real <==> Ceil(x) <= m
  {
  }

  /** Scaling by a positive rate keeps and reflects order. */
  lemma Scaled(x: real, m: real, rate: real)
    requires rate > 0.0
    ensures x <= m <==> x * rate <= m * rate
  {
    if x <= m {
      LongerIsMore(x, m, rate);
    } else {
      StrictlyMore(m, x, rate);
    }
  }

  lemma StrictlyMore(x: real, y: real, rate: real)
    requires x < y && rate > 0.0
    ensures x * rate < y * rate
  {
    assert (y - x) * rate > 0.0;
    Distribute(x, y - x, rate);
  }

  /** What a retry value promises: the tokens missing, in whole seconds of refill, rounded up. */
  lemma RetryAfterCovers(b: Budget, t: real, m: nat)
    requires b.rate > 0.0 && t < 1.0
    ensures m >= RetryAfter(b, t) <==> t + m as real * b.rate >= 1.0
  {
    var x := (1.0 - t) / b.rate;
    assert x * b.rate == 1.0 - t;
    Scaled(x, m as real, b.rate);
    Scaled(x, 0.0, b.rate);
    CeilCovers(x, m);
    CeilCovers(x, 0);
  }

  lemma AdmitsIff(b: Budget, k: Bucket, now: real, secs: nat)
    requires b.rate > 0.0 && b.capacity >= 1 && k.last == now
    ensures Admits(b, k, now + secs as real) <==> k.tokens + secs as real * b.rate >= 1.0
  {
  }

  /**
   The retry value is sufficient and tight. After a rejection, with any number of further rejected
   calls in between, a call `m` whole seconds later is admitted exactly when `m` is at least the
   value returned, provided the bucket can hold a token at all.
   */
  lemma RetryAfterIsExact(b: Budget, k: Bucket, now: real, retry: nat, ts: seq<real>, m: nat)
    requires b.rate > 0.0 && b.capacity >= 1 && Sound(b, k) && AnswerTo(b, k, now) == Rejected(retry)
    requires NonDecreasing(now, ts + [now + m as real])
    requires forall i :: 0 <= i < |ts| ==> !Admissions(b, Charge(b, k, now), ts)[i]
    ensures Admits(b, BucketAfter(b, Charge(b, k, now), ts), now + m as real) <==> m >= retry
  {
    hide RetryAfter, Sound, Admissions, BucketAfter, NonDecreasing;
    CallBalance(b, k, now);
    RetryAfterCovers(b, Refill(b, k, now), m);
    LazyRefillEqualsOne(b, Charge(b, k, now), ts, now + m as real);
    AdmitsIff(b, Charge(b, k, now), now, m);
  }

  // ── the budgets in calls and seconds ─────────────────────────────────

  /** A drained bucket of a per-minute budget gains exactly that many tokens in a minute, up to its capacity. */
  lemma PerMinuteGain(capacity: nat, perMin: nat, t: real)
    ensures Refill(PerMin(capacity, perMin), Bucket(0.0, t), t + 60.0) ==
            if perMin < capacity then perMin as real else capacity as real
  {
    assert 60.0 * (perMin as real / 60.0) == perMin as real;
  }

  /** The configured budgets: how many calls at once, and how many a minute from then on. */
  lemma ConfiguredBudgets(t: real)
    ensures forall c: Class ::
              var (burst, perMin) := match c
                case CreateClass => (20, 10.0)
                case TokenClass => (120, 120.0)
                case CommitClass => (600, 600.0)
                case DefaultClass => (300, 300.0);
              BudgetOf(c).capacity == burst && Refill(BudgetOf(c), Bucket(0.0, t), t + 60.0) == perMin
    ensures DEFAULT_UNAUTH.capacity == 60 && Refill(DEFAULT_UNAUTH, Bucket(0.0, t), t + 30.0) == 60.0
  {
    PerMinuteGain(20, 10, t);
    PerMinuteGain(120, 120, t);
    PerMinuteGain(300, 300, t);
  }

  /** Calls at one instant on a bucket with `m` whole tokens: the first `m` are admitted and no more. */
  lemma {:induction false} BurstIsExact(b: Budget, m: nat, t: real, n: nat)
    requires b.rate > 0.0 && m <= b.capacity
    ensures Admissions(b, Bucket(m as real, t), seq(n, i => t)) == seq(n, i => i < m)
    decreases n
  {
    if n > 0 {
      var ts := seq(n, i => t);
      assert ts[1..] == seq(n - 1, i => t);
      var k := Bucket(m as real, t);
      assert Refill(b, k, t) == m as real;
      if m > 0 {
        assert Charge(b, k, t) == Bucket((m - 1) as real, t);
        BurstIsExact(b, m - 1, t, n - 1);
      } else {
        assert Charge(b, k, t) == k;
        BurstIsExact(b, 0, t, n - 1);
      }
      assert Admissions(b, k, ts) == seq(n, i => i < m);
    }
  }

  /** A key never seen before admits exactly its burst at once. */
  lemma NewKeyAdmitsItsBurst(b: Budget, t: real, n: nat)
    requires b.rate > 0.0
    ensures Admissions(b, OrFull(b, None, t), seq(n, i => t)) == seq(n, i => i < b.capacity)
  {
    BurstIsExact(b, b.capacity, t, n);
  }

  /** A reading that arrives late refills nothing. */
  lemma LateReadingRefillsNothing(b: Budget, k: Bucket, now: real)
    requires now <= k.last && Sound(b, k)
    ensures Refill(b, k, now) == k.tokens && (Admits(b, k, now) <==> k.tokens >= 1.0)
  {
  }
}
