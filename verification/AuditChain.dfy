/**
 The audit log's hash chain: each chained row stores the hash of the row before it and the hash of
 its own contents. The hash is a parameter; nothing is assumed of it but its 32-byte length, and
 the theorems that need more name the collision they would otherwise exhibit.
 */
module AuditChain {
  import opened Base
  import opened Ids

  type i64 = x: int | -0x8000_0000_0000_0000 <= x < 0x8000_0000_0000_0000

  type Hash = Bytes -> Bytes

  /** The `prev_hash` of the first chained row: 32 zero bytes. */
  const GENESIS: Bytes :=
    [0, 0, 0, 0, 0, 0, 0, 0, 0, 0, 0, 0, 0, 0, 0, 0, 0, 0, 0, 0, 0, 0, 0, 0, 0, 0, 0, 0, 0, 0, 0, 0]

  /** What a caller records. `repo` is a validated repo id when present. */
  datatype Event = Event(ts: i64, event: Bytes, actor: Bytes, repo: Option<Bytes>, fields: Bytes, request: Option<Bytes>)

  /** A row of `audit_events`. Rows older than the chain carry no hashes. */
  datatype Row = Row(id: nat, evt: Event, prev: Option<Bytes>, hash: Option<Bytes>)

  ghost predicate HashLength(hash: Hash) {
    forall x :: |hash(x)| == 32
  }

  // ── the hashed bytes of a row ────────────────────────────────────────

  function LittleEndian(u: nat, n: nat): (r: Bytes)
    ensures |r| == n
  {
    if n == 0 then [] else [u % 256] + LittleEndian(u / 256, n - 1)
  }

  function TsBytes(ts: i64): (r: Bytes)
    ensures |r| == 8
  {
    LittleEndian(if ts < 0 then ts + 0x1_0000_0000_0000_0000 else ts, 8)
  }

  /** NULL, empty and malformed repo ids all hash as the empty string. */
  function HashedRepo(repo: Option<Bytes>): Bytes {
    if repo.Some? && ValidRepoId(repo.value) then repo.value else []
  }

  /** A missing request id hashes as the empty one. */
  function HashedRequest(request: Option<Bytes>): Bytes {
    if request.Some? then request.value else []
  }

  function AfterPrev(e: Event): Bytes {
    TsBytes(e.ts) + (e.event + [0] + (e.actor + [0] + (HashedRepo(e.repo) + [0] + (e.fields + [0] + HashedRequest(e.request)))))
  }

  function Preimage(prev: Bytes, e: Event): Bytes {
    prev + AfterPrev(e)
  }

  function HashRow(hash: Hash, prev: Bytes, e: Event): Bytes {
    hash(Preimage(prev, e))
  }

  // ── appending ────────────────────────────────────────────────────────

  /** The newest stored hash, or `base` when no row is chained. */
  function TailOr(rows: seq<Row>, base: Bytes): Bytes {
    if rows == [] then base
    else if rows[|rows| - 1].hash.Some? then rows[|rows| - 1].hash.value
    else TailOr(rows[..|rows| - 1], base)
  }

  function NewRow(hash: Hash, rows: seq<Row>, id: nat, e: Event): Row {
    var prev := TailOr(rows, GENESIS);
    Row(id, e, Some(prev), Some(HashRow(hash, prev, e)))
  }

  // ── verification ─────────────────────────────────────────────────────

  datatype Verdict =
    | Verified(count: nat)
    | PrevMismatch(id: nat)
    | HashMismatch(id: nat)
    | Unreadable(id: nat)

  /** The verdict on `rows` when the next chained row is expected to name `expected`. */
  function Walk(hash: Hash, rows: seq<Row>, expected: Bytes, count: nat): Verdict {
    if rows == [] then Verified(count)
    else
      var row := rows[0];
      if row.hash.None? then Walk(hash, rows[1..], expected, count)
      else if row.prev.None? then Unreadable(row.id)
      else if row.prev.value != expected then PrevMismatch(row.id)
      else if HashRow(hash, row.prev.value, row.evt) != row.hash.value then HashMismatch(row.id)
      else Walk(hash, rows[1..], row.hash.value, count + 1)
  }

  function Keep(rows: seq<Row>, cutoff: int): seq<Row> {
    if rows == [] then []
    else (if rows[0].evt.ts < cutoff then [] else [rows[0]]) + Keep(rows[1..], cutoff)
  }

  function Chained(rows: seq<Row>): (r: seq<Row>)
    ensures forall i :: 0 <= i < |r| ==> r[i].hash.Some?
  {
    if rows == [] then []
    else (if rows[0].hash.Some? then [rows[0]] else []) + Chained(rows[1..])
  }

  ghost predicate IdsGrow(rows: seq<Row>, bound: nat) {
    && (forall i :: 0 <= i < |rows| ==> rows[i].id < bound)
    && forall i, j :: 0 <= i < j < |rows| ==> rows[i].id < rows[j].id
  }

  /** The SQLite table. Ids grow with every insert and are never reused. */
  class AuditStore {
    const hash: Hash
    var rows: seq<Row>
    var nextId: nat

    ghost predicate Valid()
      reads this
    {
      IdsGrow(rows, nextId)
    }

    constructor (hash: Hash)
      ensures Valid() && rows == [] && this.hash == hash
    {
      this.hash := hash;
      rows, nextId := [], 1;
    }

    /** The newest chained row's hash is read and the new row inserted in one write transaction. */
    method Record(e: Event)
      requires Valid()
      modifies this
      ensures Valid() && nextId == old(nextId) + 1
      ensures rows == old(rows) + [NewRow(hash, old(rows), old(nextId), e)]
    {
      var row := NewRow(hash, rows, nextId, e);
      rows, nextId := rows + [row], nextId + 1;
    }

    method PruneOlderThan(cutoff: int) returns (affected: nat)
      requires Valid()
      modifies `rows
      ensures Valid()
      ensures rows == Keep(old(rows), cutoff) && affected == |old(rows)| - |rows|
    {
      KeepLength(rows, cutoff);
      KeepIds(rows, cutoff, nextId);
      var kept := Keep(rows, cutoff);
      affected := |rows| - |kept|;
      rows := kept;
    }

    method VerifyChain() returns (v: Verdict)
      ensures v == Walk(hash, rows, GENESIS, 0)
    {
      var expectedPrev: Option<Bytes> := None;
      var verified: nat := 0;
      var i := 0;
      while i < |rows|
        invariant 0 <= i <= |rows|
        invariant Walk(hash, rows, GENESIS, 0) ==
                  Walk(hash, rows[i..], if expectedPrev.Some? then expectedPrev.value else GENESIS, verified)
      {
        var row := rows[i];
        assert rows[i..][1..] == rows[i + 1..];
        if row.hash.Some? {
          if row.prev.None? {
            return Unreadable(row.id);
          }
          var expected := if expectedPrev.Some? then expectedPrev.value else GENESIS;
          if row.prev.value != expected {
            return PrevMismatch(row.id);
          }
          if HashRow(hash, row.prev.value, row.evt) != row.hash.value {
            return HashMismatch(row.id);
          }
          expectedPrev := Some(row.hash.value);
          verified := verified + 1;
        }
        i := i + 1;
      }
      return Verified(verified);
    }
  }

  lemma {:induction false} KeepLength(rows: seq<Row>, cutoff: int)
    ensures |Keep(rows, cutoff)| <= |rows|
  {
    if rows != [] {
      KeepLength(rows[1..], cutoff);
    }
  }

  lemma {:induction false} KeepIn(rows: seq<Row>, cutoff: int)
    ensures forall r :: r in Keep(rows, cutoff) <==> r in rows && r.evt.ts >= cutoff
  {
    if rows != [] {
      KeepIn(rows[1..], cutoff);
      assert rows == [rows[0]] + rows[1..];
    }
  }

  lemma IdsGrowCons(row: Row, rest: seq<Row>, bound: nat)
    requires IdsGrow(rest, bound) && row.id < bound && forall r :: r in rest ==> row.id < r.id
    ensures IdsGrow([row] + rest, bound)
  {
  }

  lemma {:induction false} KeepIds(rows: seq<Row>, cutoff: int, bound: nat)
    requires IdsGrow(rows, bound)
    ensures IdsGrow(Keep(rows, cutoff), bound)
  {
    if rows != [] {
      var tail := rows[1..];
      assert forall i :: 0 <= i < |tail| ==> tail[i] == rows[i + 1];
      assert IdsGrow(tail, bound) && forall r :: r in tail ==> rows[0].id < r.id;
      KeepIds(tail, cutoff, bound);
      KeepIn(tail, cutoff);
      var rest := Keep(tail, cutoff);
      if rows[0].evt.ts < cutoff {
        assert Keep(rows, cutoff) == [] + rest == rest;
      } else {
        IdsGrowCons(rows[0], rest, bound);
        assert Keep(rows, cutoff) == [rows[0]] + rest;
      }
    }
  }

  // ── walking in two parts ─────────────────────────────────────────────

  lemma {:induction false} TailSkips(row: Row, rows: seq<Row>, base: Bytes)
    ensures TailOr([row] + rows, base) == TailOr(rows, if row.hash.Some? then row.hash.value else base)
  {
    if rows == [] {
      assert [row] + rows == [row] && [row][..0] == [];
    } else {
      var all := [row] + rows;
      assert all[..|all| - 1] == [row] + rows[..|rows| - 1];
      TailSkips(row, rows[..|rows| - 1], base);
    }
  }

  /** A table verifies part by part: the second part starts from the tail of the first. */
  lemma {:induction false} WalkJoin(hash: Hash, a: seq<Row>, b: seq<Row>, expected: Bytes, count: nat)
    ensures Walk(hash, a + b, expected, count) ==
            match Walk(hash, a, expected, count)
            case Verified(m) => Walk(hash, b, TailOr(a, expected), m)
            case broken => broken
    decreases |a|
  {
    if a == [] {
      assert a + b == b;
    } else {
      assert (a + b)[1..] == a[1..] + b && a == [a[0]] + a[1..];
      TailSkips(a[0], a[1..], expected);
      if a[0].hash.None? {
        WalkJoin(hash, a[1..], b, expected, count);
      } else {
        WalkJoin(hash, a[1..], b, a[0].hash.value, count + 1);
      }
    }
  }

  /**
   Recording never breaks and never repairs a table: whatever the state of the log, its verdict
   after one more record is the old one, or one more verified row.
   */
  lemma RecordKeepsVerdict(hash: Hash, rows: seq<Row>, id: nat, e: Event)
    ensures Walk(hash, rows + [NewRow(hash, rows, id, e)], GENESIS, 0) ==
            match Walk(hash, rows, GENESIS, 0)
            case Verified(m) => Verified(m + 1)
            case broken => broken
  {
    var row := NewRow(hash, rows, id, e);
    WalkJoin(hash, rows, [row], GENESIS, 0);
    assert [row][1..] == [];
  }
}
