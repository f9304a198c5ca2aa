/** What the hash of a row says about its fields, and the tail hash about the whole log. */
module AuditFields {
  import opened Base
  import opened AuditChain
  import opened AuditTamper

  // ── when the separators separate ─────────────────────────────────────

  ghost predicate NulFree(x: Bytes) {
    forall i :: 0 <= i < |x| ==> x[i] != 0
  }

  /** The fields that are followed by a separator hold no NUL byte. */
  ghost predicate Separable(e: Event) {
    NulFree(e.event) && NulFree(e.actor) && NulFree(e.fields)
  }

  ghost predicate SameHashedFields(a: Event, b: Event) {
    && a.ts == b.ts && a.event == b.event && a.actor == b.actor && a.fields == b.fields
    && HashedRepo(a.repo) == HashedRepo(b.repo) && HashedRequest(a.request) == HashedRequest(b.request)
  }

  lemma SplitAtNul(x: Bytes, p: Bytes, y: Bytes, q: Bytes)
    requires NulFree(x) && NulFree(y) && x + [0] + p == y + [0] + q
    ensures x == y && p == q
  {
    var s := x + [0] + p;
    assert s[|x|] == 0 && forall i :: 0 <= i < |x| ==> s[i] == x[i];
    assert s == y + [0] + q;
    assert s[|y|] == 0 && forall i :: 0 <= i < |y| ==> s[i] == y[i];
    assert |x| == |y|;
    assert s[..|x|] == x && s[..|y|] == y;
    FieldThenRest(x, p, y, q);
  }

  /** The separators do their job: without NUL bytes in the separated fields nothing is ambiguous. */
  lemma SeparatedFieldsAreUnambiguous(a: Event, b: Event)
    requires Separable(a) && Separable(b)
    ensures AfterPrev(a) == AfterPrev(b) <==> SameHashedFields(a, b)
  {
    if AfterPrev(a) == AfterPrev(b) {
      var r, r' := HashedRepo(a.repo), HashedRepo(b.repo);
      var a3, b3 := a.fields + [0] + HashedRequest(a.request), b.fields + [0] + HashedRequest(b.request);
      var a2, b2 := r + [0] + a3, r' + [0] + b3;
      var a1, b1 := a.actor + [0] + a2, b.actor + [0] + b2;
      assert AfterPrev(a)[..8] == TsBytes(a.ts) && AfterPrev(b)[..8] == TsBytes(b.ts);
      TsBytesInjective(a.ts, b.ts);
      CancelFront(TsBytes(a.ts), a.event + [0] + a1, b.event + [0] + b1);
      SplitAtNul(a.event, a1, b.event, b1);
      SplitAtNul(a.actor, a2, b.actor, b2);
      SplitAtNul(r, a3, r', b3);
      SplitAtNul(a.fields, HashedRequest(a.request), b.fields, HashedRequest(b.request));
    }
  }

  function Nuls(x: Bytes): nat {
    if x == [] then 0 else (if x[0] == 0 then 1 else 0) + Nuls(x[1..])
  }

  lemma {:induction false} NulsJoin(x: Bytes, y: Bytes)
    ensures Nuls(x + y) == Nuls(x) + Nuls(y)
    decreases |x|
  {
    if x == [] {
      assert x + y == y;
    } else {
      assert (x + y)[1..] == x[1..] + y;
      NulsJoin(x[1..], y);
    }
  }

  lemma {:induction false} NoNulsIff(x: Bytes)
    ensures Nuls(x) == 0 <==> NulFree(x)
    decreases |x|
  {
    if x != [] {
      NoNulsIff(x[1..]);
      assert NulFree(x) <==> x[0] != 0 && NulFree(x[1..]) by {
        assert forall i :: 1 <= i < |x| ==> x[i] == x[1..][i - 1];
      }
    }
  }

  /** The five variable parts joined by their separators. */
  function Joined(e: Event): Bytes {
    e.event + [0] + (e.actor + [0] + (HashedRepo(e.repo) + [0] + (e.fields + [0] + HashedRequest(e.request))))
  }

  lemma AfterPrevParts(e: Event)
    ensures AfterPrev(e) == TsBytes(e.ts) + Joined(e)
    ensures AfterPrev(e)[..8] == TsBytes(e.ts) && AfterPrev(e)[8..] == Joined(e)
  {
  }

  lemma SeparatorAddsOne(x: Bytes, rest: Bytes)
    ensures Nuls(x + [0] + rest) == Nuls(x) + 1 + Nuls(rest)
  {
    NulsJoin(x + [0], rest);
    NulsJoin(x, [0]);
    assert [0][1..] == [];
    assert Nuls([0]) == 1;
  }

  lemma RepoHasNoNul(repo: Option<Bytes>)
    ensures Nuls(HashedRepo(repo)) == 0
  {
    NoNulsIff(HashedRepo(repo));
  }

  lemma JoinedNuls(e: Event)
    ensures Nuls(Joined(e)) == 4 + Nuls(e.event) + Nuls(e.actor) + Nuls(e.fields) + Nuls(HashedRequest(e.request))
  {
    var c := e.fields + [0] + HashedRequest(e.request);
    var b := HashedRepo(e.repo) + [0] + c;
    SeparatorAddsOne(e.fields, HashedRequest(e.request));
    SeparatorAddsOne(HashedRepo(e.repo), c);
    SeparatorAddsOne(e.actor, b);
    SeparatorAddsOne(e.event, e.actor + [0] + b);
    RepoHasNoNul(e.repo);
  }

  /** No hashed field holds a NUL byte; a repository id never does. */
  ghost predicate Clean(e: Event) {
    NulFree(e.event) && NulFree(e.actor) && NulFree(e.fields) && NulFree(HashedRequest(e.request))
  }

  lemma CleanIff(e: Event)
    ensures Clean(e) <==> Nuls(Joined(e)) == 4
  {
    JoinedNuls(e);
    NoNulsIff(e.event);
    NoNulsIff(e.actor);
    NoNulsIff(e.fields);
    NoNulsIff(HashedRequest(e.request));
  }

  /** A clean event and any event that hashes the same bytes have the same fields. */
  lemma CleanIsUnambiguous(a: Event, b: Event)
    requires Clean(a) && AfterPrev(a) == AfterPrev(b)
    ensures SameHashedFields(a, b)
  {
    AfterPrevParts(a);
    AfterPrevParts(b);
    CleanIff(a);
    CleanIff(b);
    SeparatedFieldsAreUnambiguous(a, b);
  }

  ghost predicate Ambiguous(a: Event, b: Event) {
    AfterPrev(a) == AfterPrev(b) && !SameHashedFields(a, b)
  }

  lemma FirstNul(x: Bytes) returns (i: nat)
    requires !NulFree(x)
    ensures i < |x| && x == x[..i] + [0] + x[i + 1..]
  {
    i :| i < |x| && x[i] == 0;
  }

  /** Cut the offending field at its NUL and move one side of it across the neighbouring separator. */
  lemma MoveAcross(a: Event) returns (b: Event)
    requires !Clean(a)
    ensures Ambiguous(a, b)
  {
    var request := HashedRequest(a.request);
    if !NulFree(a.event) {
      var i := FirstNul(a.event);
      var x, y := a.event[..i], a.event[i + 1..];
      b := a.(event := x, actor := y + [0] + a.actor);
      SameBytes(a.event, a.actor, x, y + [0] + a.actor, Rest(a));
    } else if !NulFree(a.actor) {
      var i := FirstNul(a.actor);
      var x, y := a.actor[..i], a.actor[i + 1..];
      b := a.(event := a.event + [0] + x, actor := y);
      assert a.actor != y;
      SameBytes(a.event, a.actor, a.event + [0] + x, y, Rest(a));
    } else if !NulFree(a.fields) {
      var i := FirstNul(a.fields);
      var x, y := a.fields[..i], a.fields[i + 1..];
      b := a.(fields := x, request := Some(y + [0] + request));
      assert a.fields + [0] + request == x + [0] + (y + [0] + request);
    } else {
      var i := FirstNul(request);
      var x, y := request[..i], request[i + 1..];
      b := a.(fields := a.fields + [0] + x, request := Some(y));
      assert a.fields + [0] + request == a.fields + [0] + x + [0] + y;
    }
  }

  function Rest(e: Event): Bytes {
    HashedRepo(e.repo) + [0] + (e.fields + [0] + HashedRequest(e.request))
  }

  lemma SameBytes(event: Bytes, actor: Bytes, event': Bytes, actor': Bytes, rest: Bytes)
    requires event + [0] + actor == event' + [0] + actor'
    ensures event + [0] + (actor + [0] + rest) == event' + [0] + (actor' + [0] + rest)
  {
    assert event + [0] + (actor + [0] + rest) == event + [0] + actor + ([0] + rest);
    assert event' + [0] + (actor' + [0] + rest) == event' + [0] + actor' + ([0] + rest);
  }

  /**
   Exactly when the separators separate: the hashed bytes of an event determine its fields, against
   every other event there could be, if and only if none of its own fields holds a NUL byte.
   */
  lemma UnambiguousIffClean(a: Event)
    ensures (forall b: Event :: AfterPrev(a) == AfterPrev(b) ==> SameHashedFields(a, b)) <==> Clean(a)
  {
    if Clean(a) {
      forall b: Event | AfterPrev(a) == AfterPrev(b) ensures SameHashedFields(a, b) {
        CleanIsUnambiguous(a, b);
      }
    } else {
      var b := MoveAcross(a);
    }
  }

  // ── the tail commits to the log ──────────────────────────────────────

  lemma {:induction false} TailIsLastHash(rows: seq<Row>)
    ensures TailOr(rows, GENESIS) == HashBefore(Chained(rows), GENESIS, |Chained(rows)|)
  {
    if rows != [] {
      var front, last := rows[..|rows| - 1], rows[|rows| - 1];
      ChainedSnoc(front, last);
      assert rows == front + [last];
      TailIsLastHash(front);
    }
  }

  lemma {:induction false} ChainedSnoc(rows: seq<Row>, row: Row)
    ensures Chained(rows + [row]) == Chained(rows) + (if row.hash.Some? then [row] else [])
  {
    if rows == [] {
      assert rows + [row] == [row] && [row][1..] == [];
    } else {
      ChainedSnoc(rows[1..], row);
      assert (rows + [row])[1..] == rows[1..] + [row];
    }
  }

  /** Two tables that verify and end in the same stored hash. */
  ghost predicate SameTail(hash: Hash, rows: seq<Row>, rows': seq<Row>) {
    && Walk(hash, rows, GENESIS, 0).Verified? && Walk(hash, rows', GENESIS, 0).Verified?
    && TailOr(rows, GENESIS) == TailOr(rows', GENESIS)
    && NoCollision(hash, Inputs(Chained(rows)) + Inputs(Chained(rows')))
  }

  ghost predicate SameBytesHashed(c: seq<Row>, c': seq<Row>) {
    |c| == |c'| && forall i :: 0 <= i < |c| ==> AfterPrev(c[i].evt) == AfterPrev(c'[i].evt)
  }

  /** The same hashed rows in the same order, field by field, up to the normalisation of the two ids. */
  ghost predicate SameLog(c: seq<Row>, c': seq<Row>) {
    |c| == |c'| && forall i :: 0 <= i < |c| ==> SameHashedFields(c[i].evt, c'[i].evt)
  }

  /** The tail hash commits to the hashed bytes of every chained row, in order, whatever the fields hold. */
  lemma TailHashCommits(hash: Hash, rows: seq<Row>, rows': seq<Row>)
    requires HashLength(hash) && SameTail(hash, rows, rows')
    ensures SameBytesHashed(Chained(rows), Chained(rows'))
  {
    var a, b := Chained(rows), Chained(rows');
    WalkSeesChainedRows(hash, rows, GENESIS, 0);
    WalkSeesChainedRows(hash, rows', GENESIS, 0);
    VerifiedIffChain(hash, a, GENESIS, 0);
    VerifiedIffChain(hash, b, GENESIS, 0);
    TailIsLastHash(rows);
    TailIsLastHash(rows');
    ChainIsLinked(hash, a);
    ChainIsLinked(hash, b);
    HashBeforeIsHashOf(hash, a, |a|);
    HashBeforeIsHashOf(hash, b, |b|);
    HashCommitsToPast(hash, Inputs(a), Inputs(b), |a|, |b|);
    forall i | 0 <= i < |a| ensures AfterPrev(a[i].evt) == AfterPrev(b[i].evt) {
      assert Inputs(a)[..|a|][i] == Inputs(a)[i] && Inputs(b)[..|b|][i] == Inputs(b)[i];
      LinkedAt(hash, a, i);
      LinkedAt(hash, b, i);
    }
  }

  ghost predicate AllClean(c: seq<Row>) {
    forall i :: 0 <= i < |c| ==> Clean(c[i].evt)
  }

  /** Replacing one event by another that hashes the same bytes changes neither the verdict nor the tail. */
  lemma SwappedEventIsUnseen(hash: Hash, c: seq<Row>, k: nat, e: Event)
    requires HashLength(hash) && Chain(hash, c, GENESIS) && NoCollision(hash, Inputs(c)) && k < |c|
    requires AfterPrev(e) == AfterPrev(c[k].evt)
    ensures SameTail(hash, c, c[k := c[k].(evt := e)]) && Chained(c[k := c[k].(evt := e)]) == c[k := c[k].(evt := e)]
  {
    hide *;
    var c' := c[k := c[k].(evt := e)];
    AllChained(hash, c, GENESIS);
    ChainAt(hash, c, GENESIS, k);
    SameRowHash(hash, c[k].prev.value, c[k].evt, e);
    EditVerdict(hash, c, k, c'[k]);
    VerifiedIffChain(hash, c, GENESIS, 0);
    AllKept(c);
    AllKept(c');
    SameInputs(c, k, e);
    SameEnd(c, k, e);
    NoCollisionTwice(hash, Inputs(c));
    MakeSameTail(hash, c, c');
  }

  lemma MakeSameTail(hash: Hash, c: seq<Row>, c': seq<Row>)
    requires Walk(hash, c, GENESIS, 0).Verified? && Walk(hash, c', GENESIS, 0).Verified?
    requires Chained(c) == c && Chained(c') == c' && Inputs(c') == Inputs(c)
    requires HashBefore(c', GENESIS, |c'|) == HashBefore(c, GENESIS, |c|) && NoCollision(hash, Inputs(c) + Inputs(c))
    ensures SameTail(hash, c, c')
  {
    TailIsLastHash(c);
    TailIsLastHash(c');
  }

  lemma SameRowHash(hash: Hash, prev: Bytes, a: Event, b: Event)
    requires AfterPrev(a) == AfterPrev(b)
    ensures HashRow(hash, prev, a) == HashRow(hash, prev, b)
  {
  }

  lemma SameInputs(c: seq<Row>, k: nat, e: Event)
    requires k < |c| && AfterPrev(e) == AfterPrev(c[k].evt)
    ensures Inputs(c[k := c[k].(evt := e)]) == Inputs(c)
  {
    hide AfterPrev;
    var c' := c[k := c[k].(evt := e)];
    forall i | 0 <= i < |c| ensures Inputs(c')[i] == Inputs(c)[i] {
      assert RowInput(c'[i]) == RowInput(c[i]);
    }
  }

  lemma SameEnd(c: seq<Row>, k: nat, e: Event)
    requires k < |c|
    ensures HashBefore(c[k := c[k].(evt := e)], GENESIS, |c|) == HashBefore(c, GENESIS, |c|)
  {
  }

  lemma NoCollisionTwice(hash: Hash, xs: seq<Bytes>)
    requires NoCollision(hash, xs)
    ensures NoCollision(hash, xs + xs)
  {
    var twice := xs + xs;
    forall i, j | 0 <= i < |twice| && 0 <= j < |twice| ensures !Collides(hash, twice[i], twice[j]) {
      InputsDoNotCollide(hash, xs, if i < |xs| then i else i - |xs|, if j < |xs| then j else j - |xs|);
    }
    forall i | 0 <= i < |twice| ensures hash(twice[i]) != GENESIS {
      InputsDoNotCollide(hash, xs, if i < |xs| then i else i - |xs|, if i < |xs| then i else i - |xs|);
    }
  }

  lemma {:induction false} AllKept(c: seq<Row>)
    requires forall i :: 0 <= i < |c| ==> c[i].hash.Some?
    ensures Chained(c) == c
    decreases |c|
  {
    if c != [] {
      AllKept(c[1..]);
      assert c == [c[0]] + c[1..];
    }
  }

  /**
   And to the fields themselves, exactly when they are clean: every table that verifies with the same
   tail hash is the same log field by field, if and only if no chained row holds a NUL byte in a field.
   */
  lemma TailCommitsToFieldsIff(hash: Hash, rows: seq<Row>)
    requires HashLength(hash) && Walk(hash, rows, GENESIS, 0).Verified? && NoCollision(hash, Inputs(Chained(rows)))
    ensures (forall rows': seq<Row> :: SameTail(hash, rows, rows') ==> SameLog(Chained(rows), Chained(rows')))
            <==> AllClean(Chained(rows))
  {
    var c := Chained(rows);
    if AllClean(c) {
      forall rows': seq<Row> | SameTail(hash, rows, rows') ensures SameLog(c, Chained(rows')) {
        TailHashCommits(hash, rows, rows');
        forall i | 0 <= i < |c| ensures SameHashedFields(c[i].evt, Chained(rows')[i].evt) {
          CleanIsUnambiguous(c[i].evt, Chained(rows')[i].evt);
        }
      }
    } else {
      var k :| 0 <= k < |c| && !Clean(c[k].evt);
      var e := MoveAcross(c[k].evt);
      WalkSeesChainedRows(hash, rows, GENESIS, 0);
      VerifiedIffChain(hash, c, GENESIS, 0);
      SwappedEventIsUnseen(hash, c, k, e);
      var rows' := c[k := c[k].(evt := e)];
      TailIsLastHash(rows);
      AllKept(c);
      TailIsLastHash(c);
      assert SameTail(hash, rows, rows') && !SameHashedFields(c[k].evt, rows'[k].evt);
    }
  }
}
