/** What the chain verifier catches, and what it cannot see. */
module AuditTamper {
  import opened Base
  import opened AuditChain
  import opened Ids

  // ── tables in chain form ─────────────────────────────────────────────

  /** Every row is chained, names the hash before it, and stores the hash of its own contents. */
  ghost predicate Chain(hash: Hash, c: seq<Row>, expected: Bytes) {
    c != [] ==>
      c[0].hash.Some? && c[0].prev == Some(expected) &&
      c[0].hash.value == HashRow(hash, expected, c[0].evt) && Chain(hash, c[1..], c[0].hash.value)
  }

  /** Unchained rows do not take part in verification. */
  lemma {:induction false} WalkSeesChainedRows(hash: Hash, rows: seq<Row>, expected: Bytes, count: nat)
    ensures Walk(hash, rows, expected, count) == Walk(hash, Chained(rows), expected, count)
  {
    if rows != [] {
      if rows[0].hash.None? {
        WalkSeesChainedRows(hash, rows[1..], expected, count);
        assert Chained(rows) == Chained(rows[1..]);
      } else {
        WalkSeesChainedRows(hash, rows[1..], rows[0].hash.value, count + 1);
        assert Chained(rows)[1..] == Chained(rows[1..]);
      }
    }
  }

  /** A table verifies exactly when its chained rows form a chain; the verdict counts them. */
  lemma {:induction false} VerifiedIffChain(hash: Hash, c: seq<Row>, expected: Bytes, count: nat)
    requires forall i :: 0 <= i < |c| ==> c[i].hash.Some?
    ensures Walk(hash, c, expected, count).Verified? <==> Chain(hash, c, expected)
    ensures Chain(hash, c, expected) ==> Walk(hash, c, expected, count) == Verified(count + |c|)
  {
    if c != [] {
      VerifiedIffChain(hash, c[1..], c[0].hash.value, count + 1);
    }
  }

  /** The hash row `k` has to name: the one stored in the row before it. */
  function HashBefore(c: seq<Row>, expected: Bytes, k: nat): Bytes
    requires k <= |c|
  {
    if k == 0 then expected else if c[k - 1].hash.Some? then c[k - 1].hash.value else []
  }

  lemma {:induction false} ChainAt(hash: Hash, c: seq<Row>, expected: Bytes, k: nat)
    requires Chain(hash, c, expected) && k < |c|
    ensures c[k].hash.Some? && c[k].prev == Some(HashBefore(c, expected, k))
    ensures c[k].hash.value == HashRow(hash, c[k].prev.value, c[k].evt)
  {
    if k > 0 {
      ChainAt(hash, c[1..], c[0].hash.value, k - 1);
    }
  }

  lemma {:induction false} ChainSplits(hash: Hash, c: seq<Row>, expected: Bytes, k: nat)
    requires Chain(hash, c, expected) && k <= |c|
    ensures Chain(hash, c[..k], expected) && TailOr(c[..k], expected) == HashBefore(c, expected, k)
    ensures Chain(hash, c[k..], HashBefore(c, expected, k))
  {
    if k > 0 {
      ChainSplits(hash, c[1..], c[0].hash.value, k - 1);
      assert c[..k][1..] == c[1..][..k - 1] && c[1..][k - 1..] == c[k..];
      ChainAt(hash, c, expected, k - 1);
      assert c[..k][k - 1] == c[k - 1];
    }
  }

  lemma AllChained(hash: Hash, c: seq<Row>, expected: Bytes)
    requires Chain(hash, c, expected)
    ensures forall i :: 0 <= i < |c| ==> c[i].hash.Some?
  {
    forall i | 0 <= i < |c| ensures c[i].hash.Some? {
      ChainAt(hash, c, expected, i);
    }
  }

  /** An intact chain followed by anything: the verdict is the one on what follows. */
  lemma WalkPastChain(hash: Hash, c: seq<Row>, k: nat, rest: seq<Row>)
    requires Chain(hash, c, GENESIS) && k <= |c|
    ensures Walk(hash, c[..k] + rest, GENESIS, 0) == Walk(hash, rest, HashBefore(c, GENESIS, k), k)
  {
    ChainSplits(hash, c, GENESIS, k);
    AllChained(hash, c[..k], GENESIS);
    VerifiedIffChain(hash, c[..k], GENESIS, 0);
    WalkJoin(hash, c[..k], rest, GENESIS, 0);
  }

  lemma WalkOne(hash: Hash, row: Row, rest: seq<Row>, expected: Bytes, count: nat)
    requires row.hash.Some? && row.prev.Some?
    ensures Walk(hash, [row] + rest, expected, count) ==
            if row.prev.value != expected then PrevMismatch(row.id)
            else if HashRow(hash, row.prev.value, row.evt) != row.hash.value then HashMismatch(row.id)
            else Walk(hash, rest, row.hash.value, count + 1)
  {
    assert ([row] + rest)[1..] == rest;
  }

  /** The rest of the chain after row `k`, when that row is taken to store `h`. */
  lemma VerdictOnSuccessors(hash: Hash, c: seq<Row>, k: nat, h: Bytes)
    requires Chain(hash, c, GENESIS) && k < |c|
    ensures Walk(hash, c[k + 1..], h, k + 1) ==
            if c[k].hash == Some(h) || k + 1 == |c| then Verified(|c|) else PrevMismatch(c[k + 1].id)
  {
    ChainAt(hash, c, GENESIS, k);
    if c[k].hash == Some(h) {
      ChainSplits(hash, c, GENESIS, k + 1);
      AllChained(hash, c[k + 1..], h);
      VerifiedIffChain(hash, c[k + 1..], h, k + 1);
    } else if k + 1 < |c| {
      ChainAt(hash, c, GENESIS, k + 1);
      assert c[k + 1..][0] == c[k + 1];
    }
  }

  // ── first mismatch wins ──────────────────────────────────────────────

  /**
   The verdict after row `k` of a verifying chain has been overwritten by an arbitrary chained row:
   which check fires, and at which row. A mismatch is reported at the edited row itself unless that
   row was rewritten to be consistent with itself; then its successor reports it, and there is no
   successor to report an edited tail.
   */
  lemma EditVerdict(hash: Hash, c: seq<Row>, k: nat, row: Row)
    requires Chain(hash, c, GENESIS) && k < |c|
    requires row.id == c[k].id && row.prev.Some? && row.hash.Some?
    ensures Walk(hash, c[k := row], GENESIS, 0) ==
            if row.prev != c[k].prev then PrevMismatch(c[k].id)
            else if HashRow(hash, row.prev.value, row.evt) != row.hash.value then HashMismatch(c[k].id)
            else if row.hash == c[k].hash || k + 1 == |c| then Verified(|c|)
            else PrevMismatch(c[k + 1].id)
  {
    hide Chain, Walk, HashRow;
    assert c[k := row] == c[..k] + ([row] + c[k + 1..]);
    WalkPastChain(hash, c, k, [row] + c[k + 1..]);
    ChainAt(hash, c, GENESIS, k);
    WalkOne(hash, row, c[k + 1..], HashBefore(c, GENESIS, k), k);
    VerdictOnSuccessors(hash, c, k, row.hash.value);
  }

  /** The events differ in exactly one hashed field, as the hash sees it. */
  ghost predicate OneFieldDiffers(a: Event, b: Event) {
    var differs := (if a.ts != b.ts then 1 else 0) + (if a.event != b.event then 1 else 0)
      + (if a.actor != b.actor then 1 else 0) + (if HashedRepo(a.repo) != HashedRepo(b.repo) then 1 else 0)
      + (if a.fields != b.fields then 1 else 0)
      + (if HashedRequest(a.request) != HashedRequest(b.request) then 1 else 0);
    differs == 1
  }

  lemma {:induction false} LittleEndianInjective(u: nat, v: nat, n: nat)
    requires LittleEndian(u, n) == LittleEndian(v, n) && u < Pow256(n) && v < Pow256(n)
    ensures u == v
  {
    if n > 0 {
      assert LittleEndian(u, n)[1..] == LittleEndian(u / 256, n - 1);
      assert LittleEndian(v, n)[1..] == LittleEndian(v / 256, n - 1);
      LittleEndianInjective(u / 256, v / 256, n - 1);
    }
  }

  function Pow256(n: nat): nat {
    if n == 0 then 1 else 256 * Pow256(n - 1)
  }

  lemma TsBytesInjective(a: i64, b: i64)
    requires TsBytes(a) == TsBytes(b)
    ensures a == b
  {
    assert Pow256(4) == 0x1_0000_0000;
    assert Pow256(8) == 0x1_0000_0000_0000_0000;
    var u := if a < 0 then a + 0x1_0000_0000_0000_0000 else a;
    var v := if b < 0 then b + 0x1_0000_0000_0000_0000 else b;
    LittleEndianInjective(u, v, 8);
  }

  lemma CancelFront(p: Bytes, x: Bytes, y: Bytes)
    requires p + x == p + y
    ensures x == y
  {
    assert (p + x)[|p|..] == x && (p + y)[|p|..] == y;
  }

  lemma CancelBack(x: Bytes, y: Bytes, q: Bytes)
    requires x + q == y + q
    ensures x == y
  {
    assert |x| == |y|;
    assert (x + q)[..|x|] == x && (y + q)[..|y|] == y;
  }

  /** Changing a single field always changes the hashed bytes, separators or not. */
  lemma OneFieldChangesPreimage(prev: Bytes, a: Event, b: Event)
    requires OneFieldDiffers(a, b)
    ensures Preimage(prev, a) != Preimage(prev, b)
  {
    if Preimage(prev, a) == Preimage(prev, b) {
      CancelFront(prev, AfterPrev(a), AfterPrev(b));
      var r, q := HashedRepo(a.repo), HashedRequest(a.request);
      var r', q' := HashedRepo(b.repo), HashedRequest(b.request);
      if a.ts != b.ts {
        CancelBack(TsBytes(a.ts), TsBytes(b.ts),
                   a.event + [0] + (a.actor + [0] + (r + [0] + (a.fields + [0] + q))));
        TsBytesInjective(a.ts, b.ts);
      } else {
        var a1, b1 := a.actor + [0] + (r + [0] + (a.fields + [0] + q)), b.actor + [0] + (r' + [0] + (b.fields + [0] + q'));
        CancelFront(TsBytes(a.ts), a.event + [0] + a1, b.event + [0] + b1);
        FieldThenRest(a.event, a1, b.event, b1);
        if a.event == b.event {
          var a2, b2 := r + [0] + (a.fields + [0] + q), r' + [0] + (b.fields + [0] + q');
          FieldThenRest(a.actor, a2, b.actor, b2);
          if a.actor == b.actor {
            var a3, b3 := a.fields + [0] + q, b.fields + [0] + q';
            FieldThenRest(r, a3, r', b3);
            if r == r' {
              FieldThenRest(a.fields, q, b.fields, q');
            }
          }
        }
      }
    }
  }

  /** With one of two parts equal on both sides, so is the other. */
  lemma FieldThenRest(x: Bytes, p: Bytes, y: Bytes, q: Bytes)
    requires x + [0] + p == y + [0] + q
    ensures x == y <==> p == q
  {
    if x == y {
      CancelFront(x + [0], p, q);
    }
    if p == q {
      CancelBack(x + [0], y + [0], p);
      CancelBack(x, y, [0]);
    }
  }

  /** A hash value shared by two different inputs. */
  ghost predicate Collides(hash: Hash, x: Bytes, y: Bytes) {
    x != y && hash(x) == hash(y)
  }

  /**
   First mismatch wins, for the three edits an attacker can make to one row of an intact log:
   a changed field, a changed `prev_hash` and a changed `row_hash` are each reported at that row.
   A field edit can only hide behind a collision of the hash itself.
   */
  lemma OneEditStopsAtTheRow(hash: Hash, c: seq<Row>, k: nat, e: Event, h: Bytes)
    requires Chain(hash, c, GENESIS) && k < |c|
    ensures c[k].prev.Some?
    ensures OneFieldDiffers(c[k].evt, e) ==>
              Walk(hash, c[k := c[k].(evt := e)], GENESIS, 0) == HashMismatch(c[k].id) ||
              Collides(hash, Preimage(c[k].prev.value, c[k].evt), Preimage(c[k].prev.value, e))
    ensures c[k].prev != Some(h) ==> Walk(hash, c[k := c[k].(prev := Some(h))], GENESIS, 0) == PrevMismatch(c[k].id)
    ensures c[k].hash != Some(h) ==> Walk(hash, c[k := c[k].(hash := Some(h))], GENESIS, 0) == HashMismatch(c[k].id)
  {
    ChainAt(hash, c, GENESIS, k);
    EditVerdict(hash, c, k, c[k].(evt := e));
    EditVerdict(hash, c, k, c[k].(prev := Some(h)));
    EditVerdict(hash, c, k, c[k].(hash := Some(h)));
    if OneFieldDiffers(c[k].evt, e) {
      OneFieldChangesPreimage(c[k].prev.value, c[k].evt, e);
    }
  }

  /** Edits the verifier cannot see: those that the normalisation of the hashed fields identifies. */
  lemma NormalisedEditsAreInvisible(hash: Hash, c: seq<Row>, k: nat, repo: Option<Bytes>, request: Option<Bytes>)
    requires Chain(hash, c, GENESIS) && k < |c|
    requires HashedRepo(repo) == HashedRepo(c[k].evt.repo) && HashedRequest(request) == HashedRequest(c[k].evt.request)
    ensures Walk(hash, c[k := c[k].(evt := c[k].evt.(repo := repo, request := request))], GENESIS, 0) == Verified(|c|)
  {
    ChainAt(hash, c, GENESIS, k);
    EditVerdict(hash, c, k, c[k].(evt := c[k].evt.(repo := repo, request := request)));
  }

  // ── collisions among the rows at hand ────────────────────────────────

  /** The bytes a row hashes. */
  function RowInput(row: Row): Bytes {
    Preimage(if row.prev.Some? then row.prev.value else [], row.evt)
  }

  function Inputs(c: seq<Row>): (r: seq<Bytes>)
    ensures |r| == |c| && forall i :: 0 <= i < |c| ==> r[i] == RowInput(c[i])
  {
    if c == [] then [] else [RowInput(c[0])] + Inputs(c[1..])
  }

  /** No two of these inputs collide, and none hashes to the genesis value. */
  ghost predicate NoCollision(hash: Hash, xs: seq<Bytes>) {
    && (forall i, j :: 0 <= i < |xs| && 0 <= j < |xs| ==> !Collides(hash, xs[i], xs[j]))
    && forall i :: 0 <= i < |xs| ==> hash(xs[i]) != GENESIS
  }

  function HashOf(hash: Hash, xs: seq<Bytes>, k: nat): Bytes
    requires k <= |xs|
  {
    if k == 0 then GENESIS else hash(xs[k - 1])
  }

  /** Each input starts with the hash of the one before it. */
  ghost predicate LinkedInputs(hash: Hash, xs: seq<Bytes>) {
    forall k :: 0 <= k < |xs| ==> |xs[k]| >= 32 && xs[k][..32] == HashOf(hash, xs, k)
  }

  lemma InputLinked(hash: Hash, xs: seq<Bytes>, k: nat)
    requires LinkedInputs(hash, xs) && k < |xs|
    ensures |xs[k]| >= 32 && xs[k][..32] == HashOf(hash, xs, k)
  {
  }

  lemma InputsDoNotCollide(hash: Hash, xs: seq<Bytes>, i: nat, j: nat)
    requires NoCollision(hash, xs) && i < |xs| && j < |xs|
    ensures hash(xs[i]) != GENESIS && (hash(xs[i]) == hash(xs[j]) ==> xs[i] == xs[j])
  {
    assert !Collides(hash, xs[i], xs[j]);
  }

  /** Along linked inputs without collisions no hash comes back, and none is the genesis value. */
  lemma {:induction false} HashesDiffer(hash: Hash, xs: seq<Bytes>, i: nat, j: nat)
    requires LinkedInputs(hash, xs) && NoCollision(hash, xs) && i < j <= |xs|
    ensures HashOf(hash, xs, i) != HashOf(hash, xs, j)
  {
    hide LinkedInputs, NoCollision;
    if i > 0 {
      HashesDiffer(hash, xs, i - 1, j - 1);
      InputLinked(hash, xs, i - 1);
      InputLinked(hash, xs, j - 1);
      InputsDoNotCollide(hash, xs, i - 1, j - 1);
    } else {
      InputsDoNotCollide(hash, xs, j - 1, j - 1);
    }
  }

  /** A shared hash means a shared past. */
  lemma {:induction false} HashCommitsToPast(hash: Hash, xs: seq<Bytes>, ys: seq<Bytes>, i: nat, j: nat)
    requires LinkedInputs(hash, xs) && LinkedInputs(hash, ys) && NoCollision(hash, xs + ys)
    requires i <= |xs| && j <= |ys| && HashOf(hash, xs, i) == HashOf(hash, ys, j)
    ensures i == j && xs[..i] == ys[..j]
  {
    hide LinkedInputs, NoCollision;
    if i > 0 {
      InputsDoNotCollide(hash, xs + ys, i - 1, i - 1);
    }
    if j > 0 {
      InputsDoNotCollide(hash, xs + ys, |xs| + j - 1, |xs| + j - 1);
    }
    if i > 0 && j > 0 {
      InputsDoNotCollide(hash, xs + ys, i - 1, |xs| + j - 1);
      InputLinked(hash, xs, i - 1);
      InputLinked(hash, ys, j - 1);
      HashCommitsToPast(hash, xs, ys, i - 1, j - 1);
      assert xs[..i] == xs[..i - 1] + [xs[i - 1]] && ys[..j] == ys[..j - 1] + [ys[j - 1]];
    }
  }

  lemma PreimageParts(prev: Bytes, e: Event)
    ensures |Preimage(prev, e)| >= |prev| && Preimage(prev, e)[..|prev|] == prev
    ensures Preimage(prev, e)[|prev|..] == AfterPrev(e)
  {
  }

  lemma InputAt(hash: Hash, c: seq<Row>, k: nat)
    requires HashLength(hash) && Chain(hash, c, GENESIS) && k < |c|
    ensures RowInput(c[k]) == Preimage(HashBefore(c, GENESIS, k), c[k].evt)
    ensures HashBefore(c, GENESIS, k + 1) == hash(RowInput(c[k])) && |HashBefore(c, GENESIS, k)| == 32
  {
    ChainAt(hash, c, GENESIS, k);
    if k > 0 {
      ChainAt(hash, c, GENESIS, k - 1);
    }
  }

  lemma HashOfLast(hash: Hash, xs: seq<Bytes>, k: nat)
    requires 0 < k <= |xs|
    ensures HashOf(hash, xs, k) == hash(xs[k - 1])
  {
  }

  lemma NoHashYet(hash: Hash, c: seq<Row>)
    ensures HashBefore(c, GENESIS, 0) == HashOf(hash, Inputs(c), 0)
  {
  }

  lemma HashBeforeIsHashOf(hash: Hash, c: seq<Row>, k: nat)
    requires HashLength(hash) && Chain(hash, c, GENESIS) && k <= |c|
    ensures HashBefore(c, GENESIS, k) == HashOf(hash, Inputs(c), k)
  {
    hide *;
    if k > 0 {
      InputAt(hash, c, k - 1);
      assert Inputs(c)[k - 1] == RowInput(c[k - 1]);
      HashOfLast(hash, Inputs(c), k);
    } else {
      NoHashYet(hash, c);
    }
  }

  lemma LinkedAt(hash: Hash, c: seq<Row>, k: nat)
    requires HashLength(hash) && Chain(hash, c, GENESIS) && k < |c|
    ensures var x := Inputs(c)[k];
            |x| >= 32 && x[..32] == HashOf(hash, Inputs(c), k) && x[32..] == AfterPrev(c[k].evt)
  {
    InputAt(hash, c, k);
    HashBeforeIsHashOf(hash, c, k);
    PreimageParts(HashBefore(c, GENESIS, k), c[k].evt);
  }

  lemma ChainIsLinked(hash: Hash, c: seq<Row>)
    requires HashLength(hash) && Chain(hash, c, GENESIS)
    ensures LinkedInputs(hash, Inputs(c))
  {
    forall k | 0 <= k < |c| ensures |Inputs(c)[k]| >= 32 && Inputs(c)[k][..32] == HashOf(hash, Inputs(c), k) {
      LinkedAt(hash, c, k);
    }
  }

  /** The stored hashes of `c` and the genesis value are all different. */
  ghost predicate DistinctHashes(c: seq<Row>) {
    forall i, j :: 0 <= i < j <= |c| ==> HashBefore(c, GENESIS, i) != HashBefore(c, GENESIS, j)
  }

  lemma RowHashesDiffer(hash: Hash, c: seq<Row>)
    requires HashLength(hash) && Chain(hash, c, GENESIS) && NoCollision(hash, Inputs(c))
    ensures DistinctHashes(c)
  {
    ChainIsLinked(hash, c);
    forall i, j | 0 <= i < j <= |c| ensures HashBefore(c, GENESIS, i) != HashBefore(c, GENESIS, j) {
      HashBeforeIsHashOf(hash, c, i);
      HashBeforeIsHashOf(hash, c, j);
      HashesDiffer(hash, Inputs(c), i, j);
    }
  }

  /** A deleted row is reported at its successor; a deleted tail leaves no trace. */
  lemma DeletionVerdict(hash: Hash, c: seq<Row>, k: nat)
    requires HashLength(hash) && Chain(hash, c, GENESIS) && NoCollision(hash, Inputs(c)) && k < |c|
    ensures Walk(hash, c[..k] + c[k + 1..], GENESIS, 0) ==
            if k + 1 == |c| then Verified(|c| - 1) else PrevMismatch(c[k + 1].id)
  {
    WalkPastChain(hash, c, k, c[k + 1..]);
    if k + 1 < |c| {
      ChainAt(hash, c, GENESIS, k + 1);
      RowHashesDiffer(hash, c);
      assert c[k + 1..][0] == c[k + 1];
    }
  }

  // ── retention ────────────────────────────────────────────────────────

  lemma {:induction false} KeepCommutes(rows: seq<Row>, cutoff: int)
    ensures Chained(Keep(rows, cutoff)) == Keep(Chained(rows), cutoff)
  {
    if rows != [] {
      KeepCommutes(rows[1..], cutoff);
      var k := Keep(rows, cutoff);
      assert rows[0].evt.ts >= cutoff ==> k[1..] == Keep(rows[1..], cutoff);
      assert rows[0].evt.ts < cutoff ==> k == Keep(rows[1..], cutoff);
      var d := Chained(rows);
      assert rows[0].hash.Some? ==> d[1..] == Chained(rows[1..]);
      assert rows[0].hash.None? ==> d == Chained(rows[1..]);
    }
  }

  /** The first surviving row of `c[k..]`, by position; `|c|` when none survives. */
  function FirstKept(c: seq<Row>, cutoff: int, k: nat): (r: nat)
    requires k <= |c|
    ensures k <= r <= |c|
    ensures forall i :: k <= i < r ==> c[i].evt.ts < cutoff
    ensures r < |c| ==> c[r].evt.ts >= cutoff
    decreases |c| - k
  {
    if k == |c| || c[k].evt.ts >= cutoff then k else FirstKept(c, cutoff, k + 1)
  }

  lemma {:induction false} KeepFromFirst(c: seq<Row>, cutoff: int, k: nat)
    requires k <= |c|
    ensures var r := FirstKept(c, cutoff, k);
            Keep(c[k..], cutoff) == (if r == |c| then [] else [c[r]] + Keep(c[r + 1..], cutoff))
    decreases |c| - k
  {
    if k < |c| {
      var rest := Keep(c[k + 1..], cutoff);
      assert c[k..][0] == c[k] && c[k..][1..] == c[k + 1..];
      assert Keep(c[k..], cutoff) == (if c[k].evt.ts < cutoff then [] else [c[k]]) + rest;
      if c[k].evt.ts < cutoff {
        assert [] + rest == rest;
        KeepFromFirst(c, cutoff, k + 1);
      }
    }
  }

  /** What is kept of `c[k..]` is a prefix of it: nothing is kept after the first row dropped. */
  ghost predicate KeepsPrefix(c: seq<Row>, cutoff: int, k: nat)
    requires k <= |c|
  {
    forall i, j :: k <= i < j < |c| && c[i].evt.ts < cutoff ==> c[j].evt.ts < cutoff
  }

  /** The first row from `k` on that a prune drops. */
  function FirstDropped(c: seq<Row>, cutoff: int, k: nat): (d: nat)
    requires k <= |c|
    ensures k <= d <= |c| && (d < |c| ==> c[d].evt.ts < cutoff)
    ensures forall i :: k <= i < d ==> c[i].evt.ts >= cutoff
    decreases |c| - k
  {
    if k == |c| || c[k].evt.ts < cutoff then k else FirstDropped(c, cutoff, k + 1)
  }

  /** The rows up to the first one dropped verify; the first survivor after it does not name its predecessor. */
  function AfterPrune(c: seq<Row>, cutoff: int, k: nat): Verdict
    requires k <= |c|
  {
    var d := FirstDropped(c, cutoff, k);
    var r := FirstKept(c, cutoff, d);
    if r == |c| then Verified(d) else PrevMismatch(c[r].id)
  }

  lemma {:induction false} PruneWalk(hash: Hash, c: seq<Row>, cutoff: int, k: nat)
    requires Chain(hash, c, GENESIS) && DistinctHashes(c) && k <= |c|
    ensures Walk(hash, Keep(c[k..], cutoff), HashBefore(c, GENESIS, k), k).Verified? <==> KeepsPrefix(c, cutoff, k)
    ensures KeepsPrefix(c, cutoff, k) ==>
              Walk(hash, Keep(c[k..], cutoff), HashBefore(c, GENESIS, k), k) == Verified(k + |Keep(c[k..], cutoff)|)
    ensures Walk(hash, Keep(c[k..], cutoff), HashBefore(c, GENESIS, k), k) == AfterPrune(c, cutoff, k)
    decreases |c| - k
  {
    hide Chain, Walk, HashRow, Keep, DistinctHashes;
    KeepFromFirst(c, cutoff, k);
    var r := FirstKept(c, cutoff, k);
    if r == |c| {
      WalkNone(hash, HashBefore(c, GENESIS, k), k);
    } else {
      ChainAt(hash, c, GENESIS, r);
      WalkOne(hash, c[r], Keep(c[r + 1..], cutoff), HashBefore(c, GENESIS, k), k);
      if r == k {
        PruneWalk(hash, c, cutoff, k + 1);
      } else {
        DistinctAt(c, k, r);
      }
    }
  }

  lemma WalkNone(hash: Hash, expected: Bytes, count: nat)
    ensures Walk(hash, [], expected, count) == Verified(count)
  {
  }

  lemma DistinctAt(c: seq<Row>, i: nat, j: nat)
    requires DistinctHashes(c) && i < j <= |c|
    ensures HashBefore(c, GENESIS, i) != HashBefore(c, GENESIS, j)
  {
  }

  /**
   The exact effect of retention on an intact log. The rows before the first one dropped verify, and if
   none survives after it that is the whole verdict; otherwise verification stops at the first survivor.
   So the log still verifies if and only if the surviving chained rows are a prefix of the old chain.
   */
  lemma RetentionVerdict(hash: Hash, rows: seq<Row>, cutoff: int)
    requires HashLength(hash) && Walk(hash, rows, GENESIS, 0).Verified? && NoCollision(hash, Inputs(Chained(rows)))
    ensures var v := Walk(hash, Keep(rows, cutoff), GENESIS, 0);
            var all, kept := Chained(rows), Chained(Keep(rows, cutoff));
            && v == AfterPrune(all, cutoff, 0)
            && (v.Verified? <==> kept <= all) && (kept <= all ==> v == Verified(|kept|))
  {
    var c := Chained(rows);
    WalkSeesChainedRows(hash, rows, GENESIS, 0);
    VerifiedIffChain(hash, c, GENESIS, 0);
    WalkSeesChainedRows(hash, Keep(rows, cutoff), GENESIS, 0);
    KeepCommutes(rows, cutoff);
    assert c[0..] == c;
    RowHashesDiffer(hash, c);
    PruneWalk(hash, c, cutoff, 0);
    PrefixIffKeepsPrefix(c, cutoff, 0);
  }

  lemma {:induction false} PrefixIffKeepsPrefix(c: seq<Row>, cutoff: int, k: nat)
    requires k <= |c|
    ensures Keep(c[k..], cutoff) <= c[k..] <==> KeepsPrefix(c, cutoff, k)
    decreases |c| - k
  {
    KeepFromFirst(c, cutoff, k);
    var r := FirstKept(c, cutoff, k);
    if r < |c| {
      assert c[k..][1..] == c[k + 1..];
      if r == k {
        PrefixIffKeepsPrefix(c, cutoff, k + 1);
        var rest := Keep(c[k + 1..], cutoff);
        assert [c[k]] + rest <= c[k..] <==> rest <= c[k + 1..] by {
          assert c[k..] == [c[k]] + c[k + 1..];
        }
      } else {
        assert Keep(c[k..], cutoff)[0] == c[r] && c[r].evt.ts >= cutoff && c[k].evt.ts < cutoff;
      }
    }
  }

  // ── the two columns that are normalised ──────────────────────────────

  /** The column holds a well-formed repository id. */
  predicate HoldsRepo(repo: Option<Bytes>) {
    repo.Some? && ValidRepoId(repo.value)
  }

  /** After row `k` was overwritten by `e`, the row is reported, unless the hash collides. */
  ghost predicate Reported(hash: Hash, c: seq<Row>, k: nat, e: Event)
    requires k < |c| && c[k].prev.Some?
  {
    || Walk(hash, c[k := c[k].(evt := e)], GENESIS, 0) == HashMismatch(c[k].id)
    || Collides(hash, Preimage(c[k].prev.value, c[k].evt), Preimage(c[k].prev.value, e))
  }

  /**
   Overwriting the repository of a row is reported at that row if and only if the id itself changes or one
   of the two values is no well-formed id while the other is; two values that are none pass for each other.
   */
  lemma RepoEditIff(hash: Hash, c: seq<Row>, k: nat, repo: Option<Bytes>)
    requires Chain(hash, c, GENESIS) && k < |c|
    ensures c[k].prev.Some?
    ensures var was, e := c[k].evt.repo, c[k].evt.(repo := repo);
            if HoldsRepo(was) != HoldsRepo(repo) || (HoldsRepo(was) && was.value != repo.value) then Reported(hash, c, k, e)
            else Walk(hash, c[k := c[k].(evt := e)], GENESIS, 0) == Verified(|c|)
  {
    var was, e := c[k].evt.repo, c[k].evt.(repo := repo);
    OneEditStopsAtTheRow(hash, c, k, e, []);
    if HoldsRepo(was) != HoldsRepo(repo) || (HoldsRepo(was) && was.value != repo.value) {
      assert HashedRepo(was) != HashedRepo(repo);
      assert OneFieldDiffers(c[k].evt, e);
    } else {
      SameBytesStillVerify(hash, c, k, e);
    }
  }

  /** The same for the request id, where a missing one passes for an empty one. */
  lemma RequestEditIff(hash: Hash, c: seq<Row>, k: nat, request: Option<Bytes>)
    requires Chain(hash, c, GENESIS) && k < |c|
    ensures c[k].prev.Some?
    ensures var was, e := c[k].evt.request, c[k].evt.(request := request);
            if was == request || (was in {None, Some([])} && request in {None, Some([])})
            then Walk(hash, c[k := c[k].(evt := e)], GENESIS, 0) == Verified(|c|)
            else Reported(hash, c, k, e)
  {
    var was, e := c[k].evt.request, c[k].evt.(request := request);
    OneEditStopsAtTheRow(hash, c, k, e, []);
    if was == request || (was in {None, Some([])} && request in {None, Some([])}) {
      SameBytesStillVerify(hash, c, k, e);
    } else {
      assert HashedRequest(was) != HashedRequest(request);
      assert OneFieldDiffers(c[k].evt, e);
    }
  }

  lemma SameBytesStillVerify(hash: Hash, c: seq<Row>, k: nat, e: Event)
    requires Chain(hash, c, GENESIS) && k < |c| && AfterPrev(c[k].evt) == AfterPrev(e)
    ensures Walk(hash, c[k := c[k].(evt := e)], GENESIS, 0) == Verified(|c|)
  {
    ChainAt(hash, c, GENESIS, k);
    EditVerdict(hash, c, k, c[k].(evt := e));
  }

  // ── where each column lies in the hashed bytes ───────────────────────

  /** The hashed time stamp: eight bytes, the lowest first, of the two's complement. */
  lemma TimeBytes(ts: i64)
    ensures |TsBytes(ts)| == 8
    ensures var u := if ts < 0 then ts + 0x1_0000_0000_0000_0000 else ts;
            TsBytes(ts) == [u % 0x100, u / 0x100 % 0x100, u / 0x1_0000 % 0x100, u / 0x100_0000 % 0x100, u / 0x1_0000_0000 % 0x100,
                            u / 0x100_0000_0000 % 0x100, u / 0x1_0000_0000_0000 % 0x100, u / 0x100_0000_0000_0000 % 0x100]
  {
    var u: nat := if ts < 0 then ts + 0x1_0000_0000_0000_0000 else ts;
    var u1, u2, u3 := u / 256, u / 256 / 256, u / 256 / 256 / 256;
    var u4 := u3 / 256;
    var u5 := u4 / 256;
    var u6 := u5 / 256;
    var u7 := u6 / 256;
    assert u2 == u / 0x1_0000 && u3 == u / 0x100_0000 && u4 == u / 0x1_0000_0000;
    assert u5 == u / 0x100_0000_0000 && u6 == u / 0x1_0000_0000_0000 && u7 == u / 0x100_0000_0000_0000;
    assert LittleEndian(u7, 1) == [u7 % 256];
    assert LittleEndian(u6, 2) == [u6 % 256, u7 % 256];
    assert LittleEndian(u5, 3) == [u5 % 256, u6 % 256, u7 % 256];
    assert LittleEndian(u4, 4) == [u4 % 256, u5 % 256, u6 % 256, u7 % 256];
    assert LittleEndian(u3, 5) == [u3 % 256, u4 % 256, u5 % 256, u6 % 256, u7 % 256];
    assert LittleEndian(u2, 6) == [u2 % 256, u3 % 256, u4 % 256, u5 % 256, u6 % 256, u7 % 256];
    assert LittleEndian(u1, 7) == [u1 % 256, u2 % 256, u3 % 256, u4 % 256, u5 % 256, u6 % 256, u7 % 256];
  }

  /**
   The hashed bytes, in order: the previous hash, the time, then event, actor, repository, fields and
   request with a NUL between two of them. A repository that is no well-formed id and a missing request
   leave their place empty.
   */
  lemma Layout(prev: Bytes, e: Event)
    ensures var repo := if HoldsRepo(e.repo) then e.repo.value else [];
            var request := if e.request.Some? then e.request.value else [];
            Preimage(prev, e) == prev + TsBytes(e.ts) + e.event + [0] + e.actor + [0] + repo + [0] + e.fields + [0] + request
  {
    var repo := if HoldsRepo(e.repo) then e.repo.value else [];
    var request := if e.request.Some? then e.request.value else [];
    var five := e.fields + [0] + request;
    var four := repo + [0] + five;
    var three := e.actor + [0] + four;
    var front := prev + TsBytes(e.ts);
    assert Preimage(prev, e) == front + (e.event + [0] + three);
    Regroup(front, e.event, three);
    Regroup(front + e.event + [0], e.actor, four);
    Regroup(front + e.event + [0] + e.actor + [0], repo, five);
    Regroup(front + e.event + [0] + e.actor + [0] + repo + [0], e.fields, request);
  }

  lemma Regroup(front: Bytes, part: Bytes, rest: Bytes)
    ensures front + (part + [0] + rest) == front + part + [0] + rest
  {
  }

  /** The first row of a log names 32 zero bytes. */
  lemma FirstRowNamesZeros(hash: Hash, id: nat, e: Event)
    ensures NewRow(hash, [], id, e).prev == Some(seq(32, i => 0))
    ensures NewRow(hash, [], id, e).hash == Some(hash(Preimage(seq(32, i => 0), e)))
  {
    assert GENESIS == seq(32, i => 0);
  }

  // ── runs of record ───────────────────────────────────────────────────

  /** The table after a serialised run of `record` calls on an empty log. */
  function RecordAll(hash: Hash, events: seq<Event>): seq<Row> {
    if events == [] then []
    else
      var before := RecordAll(hash, events[..|events| - 1]);
      before + [NewRow(hash, before, |events|, events[|events| - 1])]
  }

  /** Every serialised run of `record` yields a log that verifies in full and is all chain. */
  lemma {:induction false} RecordedLogVerifies(hash: Hash, events: seq<Event>)
    ensures Walk(hash, RecordAll(hash, events), GENESIS, 0) == Verified(|events|)
    ensures |RecordAll(hash, events)| == |events| && Chain(hash, RecordAll(hash, events), GENESIS)
    ensures forall i :: 0 <= i < |events| ==> RecordAll(hash, events)[i].evt == events[i] && RecordAll(hash, events)[i].id == i + 1
  {
    if events != [] {
      var prior := events[..|events| - 1];
      RecordedLogVerifies(hash, prior);
      var before := RecordAll(hash, prior);
      RecordKeepsVerdict(hash, before, |events|, events[|events| - 1]);
      AllChained(hash, before, GENESIS);
      var rows := RecordAll(hash, events);
      assert forall i :: 0 <= i < |rows| ==> rows[i].hash.Some?;
      VerifiedIffChain(hash, rows, GENESIS, 0);
    }
  }

  /**
   Why the tail is read and the row inserted in one transaction: two writers that read the same tail
   leave a log that fails at the second row, unless the first row's hash is the tail it was chained to.
   */
  lemma UnserialisedAppendsBreak(hash: Hash, rows: seq<Row>, first: nat, second: nat, a: Event, b: Event)
    requires Walk(hash, rows, GENESIS, 0).Verified?
    ensures var one, two := NewRow(hash, rows, first, a), NewRow(hash, rows, second, b);
            Walk(hash, rows + [one] + [two], GENESIS, 0).Verified? <==> one.hash == two.prev
    ensures var one, two := NewRow(hash, rows, first, a), NewRow(hash, rows, second, b);
            one.hash != two.prev ==> Walk(hash, rows + [one] + [two], GENESIS, 0) == PrevMismatch(second)
  {
    var one, two := NewRow(hash, rows, first, a), NewRow(hash, rows, second, b);
    hide Walk;
    RecordKeepsVerdict(hash, rows, first, a);
    WalkJoin(hash, rows + [one], [two], GENESIS, 0);
    assert (rows + [one])[|rows|] == one;
    assert TailOr(rows + [one], GENESIS) == one.hash.value;
    assert [two] + [] == [two];
    var m := Walk(hash, rows + [one], GENESIS, 0).count;
    WalkOne(hash, two, [], one.hash.value, m);
    WalkNone(hash, two.hash.value, m + 1);
  }
}
