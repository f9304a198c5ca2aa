/**
 The token table. Tokens are stored under their hash; rows stop authorizing when they are revoked or
 expire, and a background task prunes rows that can no longer authorize.
 */
module Tokens {
  import opened Base
  import opened Ids
  import opened Utf8

  type Hash = string

  datatype Scope = Read | Write

  /** Repository and scope are text columns; a corrupted row may hold anything there. */
  datatype Row = Row(
    repo: string,
    scope: string,
    created: int,
    expires: Option<int>,
    revoked: Option<int>,
    subject: Option<string>
  )

  type Table = map<Hash, Row>

  function ParseScope(s: string): Option<Scope> {
    if s == "read" then Some(Read) else if s == "write" then Some(Write) else None
  }

  function ScopeText(s: Scope): string {
    match s
    case Read => "read"
    case Write => "write"
  }

  /** Expiry as stored: an unsigned 64-bit sum reread as a signed column. */
  function Expiry(now: nat, ttl: nat): int {
    Signed64((now + ttl) % TWO64)
  }

  /** The row authorizes at `now`. */
  predicate Active(row: Row, now: int) {
    row.revoked.None? && (row.expires.None? || row.expires.value > now)
  }

  /** The unsigned grace time is reread as a signed number and subtracted with saturation. */
  function PruneCutoff(now: int, grace: nat): int {
    var cutoff := now - Signed64(grace);
    if cutoff < -TWO63 then -TWO63 else if cutoff >= TWO63 then TWO63 - 1 else cutoff
  }

  predicate ExpiredBy(row: Row, cutoff: int) {
    row.expires.Some? && row.expires.value <= cutoff
  }

  /** The row is removed by a prune at `now`. */
  predicate Prunable(row: Row, now: int, grace: nat) {
    row.revoked.Some? || ExpiredBy(row, PruneCutoff(now, grace))
  }

  function ActiveRows(rows: Table, now: int): Table {
    map h | h in rows && Active(rows[h], now) :: rows[h]
  }

  function ActiveIn(rows: Table, repo: RepoId, now: int): Table {
    map h | h in rows && Active(rows[h], now) && rows[h].repo == repo :: rows[h]
  }

  datatype Lookup = Absent | Found(repo: RepoId, scope: Scope) | BadScope

  function LookupHash(rows: Table, h: Hash, now: int): Lookup {
    if h !in rows || !Active(rows[h], now) || !ValidRepoIdText(rows[h].repo) then Absent
    else if ParseScope(rows[h].scope).None? then BadScope
    else Found(rows[h].repo, ParseScope(rows[h].scope).value)
  }

  /** Rows a listing of `repo` shows, all of them or one subject's. */
  function ListedRows(rows: Table, repo: RepoId, subject: Option<string>, now: int): Table {
    map h | h in rows && Active(rows[h], now) && rows[h].repo == repo && (subject.None? || rows[h].subject == subject) :: rows[h]
  }

  function Listing(rows: Table, repo: RepoId, subject: Option<string>, now: int): Option<Table> {
    var found := ListedRows(rows, repo, subject, now);
    if forall h :: h in found ==> ParseScope(found[h].scope).Some? then Some(found) else None
  }

  // ── what a listing shows of a row ────────────────────────────────────

  datatype Summary = Summary(id: string, repo: RepoId, scope: Scope, created: nat, expires: Option<nat>, subject: Option<string>)

  /** A signed 64-bit column reread as an unsigned number. */
  function Unsigned64(i: int): nat {
    (i % TWO64) as nat
  }

  predicate ValidSubject(s: string) {
    s != "" && |Encoded(s)| <= 256 && '\0' !in s
  }

  /** The id is the head of the hash; a malformed subject is shown as none. */
  function SummaryOf(h: Hash, row: Row): Summary
    requires ParseScope(row.scope).Some?
  {
    Summary(if |h| > 16 then h[..16] else h, row.repo, ParseScope(row.scope).value, Unsigned64(row.created),
            if row.expires.Some? then Some(Unsigned64(row.expires.value)) else None,
            if row.subject.Some? && ValidSubject(row.subject.value) then row.subject else None)
  }

  /** Rows of `found`, each at most once, the newest first. */
  ghost predicate Descending(order: seq<Hash>, found: Table) {
    && (forall i :: 0 <= i < |order| ==> order[i] in found)
    && forall i, j :: 0 <= i < j < |order| ==> order[i] != order[j] && found[order[i]].created >= found[order[j]].created
  }

  ghost predicate NewestFirst(order: seq<Hash>, found: Table) {
    Descending(order, found) && forall h :: h in found ==> h in order
  }

  ghost predicate Summarised(order: seq<Hash>, found: Table, list: seq<Summary>) {
    && |list| == |order|
    && forall i :: 0 <= i < |list| ==>
         order[i] in found && ParseScope(found[order[i]].scope).Some? && list[i] == SummaryOf(order[i], found[order[i]])
  }

  lemma {:induction false} NewestExists(found: Table, todo: set<Hash>)
    requires todo != {} && todo <= found.Keys
    ensures exists h :: h in todo && forall g :: g in todo ==> found[g].created <= found[h].created
    decreases |todo|
  {
    var x :| x in todo;
    if todo - {x} != {} {
      NewestExists(found, todo - {x});
      var h :| h in todo - {x} && forall g :: g in todo - {x} ==> found[g].created <= found[h].created;
      var newest := if found[x].created > found[h].created then x else h;
      assert forall g :: g in todo ==> g == x || g in todo - {x};
      assert newest in todo && forall g :: g in todo ==> found[g].created <= found[newest].created;
    } else {
      assert todo == {x};
    }
  }

  /** What the listing loop keeps: what is left is no newer than what is listed. */
  ghost predicate Listed(order: seq<Hash>, todo: set<Hash>, found: Table, list: seq<Summary>) {
    && Descending(order, found) && Summarised(order, found, list) && todo <= found.Keys
    && (forall h :: h in found ==> h in todo || h in order)
    && forall i, h :: 0 <= i < |order| && h in todo ==> order[i] != h && order[i] in found && found[order[i]].created >= found[h].created
  }

  lemma ListedOneMore(order: seq<Hash>, todo: set<Hash>, found: Table, list: seq<Summary>, h: Hash)
    requires Listed(order, todo, found, list) && h in todo && forall g :: g in todo ==> found[g].created <= found[h].created
    requires ParseScope(found[h].scope).Some?
    ensures Listed(order + [h], todo - {h}, found, list + [SummaryOf(h, found[h])])
  {
    assert forall g :: g in order ==> g in order + [h];
  }

  lemma ListedStart(found: Table)
    ensures Listed([], found.Keys, found, [])
  {
  }

  lemma ListedDone(order: seq<Hash>, found: Table, list: seq<Summary>)
    requires Listed(order, {}, found, list)
    ensures NewestFirst(order, found) && Summarised(order, found, list)
  {
  }

  function RevokeRow(row: Row, now: int): Row {
    row.(revoked := Some(now))
  }

  // ── the table as a state machine ─────────────────────────────────────

  datatype Op =
    | Mint(hash: Hash, repo: RepoId, scope: Scope, ttl: Option<nat>, subject: Option<string>, now: nat)
    | Revoke(hash: Hash, now: nat)
    | RevokeAll(repo: RepoId, now: nat)
    | Prune(grace: nat, now: nat)

  function Minted(op: Op): Row
    requires op.Mint?
  {
    Row(op.repo, ScopeText(op.scope), op.now, if op.ttl.Some? then Some(Expiry(op.now, op.ttl.value)) else None, None, op.subject)
  }

  function Applied(rows: Table, op: Op): Table {
    match op
    case Mint(h, _, _, _, _, _) => if h in rows then rows else rows[h := Minted(op)]
    case Revoke(h, now) => if h in rows && rows[h].revoked.None? then rows[h := RevokeRow(rows[h], now)] else rows
    case RevokeAll(repo, now) =>
      map h | h in rows :: if Active(rows[h], now) && rows[h].repo == repo then RevokeRow(rows[h], now) else rows[h]
    case Prune(grace, now) => map h | h in rows && !Prunable(rows[h], now, grace) :: rows[h]
  }

  class TokenStore {
    var rows: Table
    const hash: string -> Hash

    constructor (hash: string -> Hash)
      ensures rows == map[] && this.hash == hash
    {
      rows := map[];
      this.hash := hash;
    }

    /** A repeated hash violates the primary key. */
    method MintToken(token: string, repo: RepoId, scope: Scope, ttl: Option<nat>, subject: Option<string>, now: nat)
      returns (ok: bool)
      modifies this
      ensures ok <==> hash(token) !in old(rows)
      ensures rows == Applied(old(rows), Mint(hash(token), repo, scope, ttl, subject, now))
    {
      var h := hash(token);
      if h in rows {
        return false;
      }
      var expires := if ttl.Some? then Some(Expiry(now, ttl.value)) else None;
      rows := rows[h := Row(repo, ScopeText(scope), now, expires, None, subject)];
      return true;
    }

    method LookupToken(token: string, now: nat) returns (r: Lookup)
      ensures r == LookupHash(rows, hash(token), now)
    {
      var h := hash(token);
      if h !in rows {
        return Absent;
      }
      var row := rows[h];
      if row.revoked.Some? || (row.expires.Some? && row.expires.value <= now) {
        return Absent;
      }
      if !ValidRepoIdText(row.repo) {
        return Absent;
      }
      match ParseScope(row.scope) {
        case None => return BadScope;
        case Some(scope) => return Found(row.repo, scope);
      }
    }

    method RevokeToken(token: string, now: nat) returns (revoked: bool)
      modifies this
      ensures rows == Applied(old(rows), Revoke(hash(token), now))
      ensures revoked <==> hash(token) in old(rows) && old(rows)[hash(token)].revoked.None?
    {
      var h := hash(token);
      if h in rows && rows[h].revoked.None? {
        rows := rows[h := rows[h].(revoked := Some(now))];
        return true;
      }
      return false;
    }

    method RevokeAllForRepo(repo: RepoId, now: nat) returns (killed: nat)
      modifies this
      ensures rows == Applied(old(rows), RevokeAll(repo, now))
      ensures killed == |ActiveIn(old(rows), repo, now)|
    {
      var hit := ActiveIn(rows, repo, now);
      rows := map h | h in rows :: if h in hit then RevokeRow(rows[h], now) else rows[h];
      return |hit|;
    }

    /**
     The active rows of a repository and subject, the newest first; rows of the same second come in any
     order. One row with an unreadable scope fails the whole listing.
     */
    method ListForRepo(repo: RepoId, subject: Option<string>, now: nat) returns (listed: Option<seq<Summary>>, ghost order: seq<Hash>)
      requires ValidRepoIdText(repo)
      ensures listed.Some? <==> Listing(rows, repo, subject, now).Some?
      ensures listed.Some? ==>
                NewestFirst(order, ListedRows(rows, repo, subject, now)) && Summarised(order, ListedRows(rows, repo, subject, now), listed.value)
    {
      hide Listed, Descending, Summarised, NewestFirst, SummaryOf, ListedRows;
      var found := ListedRows(rows, repo, subject, now);
      var list: seq<Summary> := [];
      order := [];
      var todo := found.Keys;
      ListedStart(found);
      while todo != {}
        invariant todo <= found.Keys
        invariant Listed(order, todo, found, list)
        decreases |todo|
      {
        NewestExists(found, todo);
        var h :| h in todo && forall g :: g in todo ==> found[g].created <= found[h].created;
        var scope := ParseScope(found[h].scope);
        if scope.None? {
          return None, [];
        }
        ListedOneMore(order, todo, found, list, h);
        list := list + [SummaryOf(h, found[h])];
        order := order + [h];
        todo := todo - {h};
      }
      ListedDone(order, found, list);
      return Some(list), order;
    }

    method PruneRows(grace: nat, now: nat) returns (removed: nat)
      modifies this
      ensures rows == Applied(old(rows), Prune(grace, now))
      ensures removed == |old(rows)| - |rows|
    {
      var before := rows;
      var gone := map h | h in rows && Prunable(rows[h], now, grace) :: rows[h];
      rows := rows - gone.Keys;
      assert before.Keys == gone.Keys + rows.Keys;
      assert |before| == |before.Keys| && |gone| == |gone.Keys| && |rows| == |rows.Keys|;
      removed := |gone|;
    }
  }

  // ── pruning against never pruning ────────────────────────────────────

  /** The same step on a table that is never pruned. */
  function Kept(rows: Table, op: Op): Table {
    if op.Prune? then rows else Applied(rows, op)
  }

  function Replay(rows: Table, ops: seq<Op>): Table
    decreases |ops|
  {
    if ops == [] then rows else Replay(Applied(rows, ops[0]), ops[1..])
  }

  function ReplayKept(rows: Table, ops: seq<Op>): Table
    decreases |ops|
  {
    if ops == [] then rows else ReplayKept(Kept(rows, ops[0]), ops[1..])
  }

  ghost predicate InClockOrder(start: int, ops: seq<Op>)
    decreases |ops|
  {
    ops == [] || (start <= ops[0].now && InClockOrder(ops[0].now, ops[1..]))
  }

  function Clock(start: int, ops: seq<Op>): int {
    if ops == [] then start else ops[|ops| - 1].now
  }

  /** Every mint draws a token whose hash was never stored before. */
  ghost predicate NewHashes(kept: Table, ops: seq<Op>)
    decreases |ops|
  {
    ops == [] || ((ops[0].Mint? ==> ops[0].hash !in kept) && NewHashes(Kept(kept, ops[0]), ops[1..]))
  }

  /** The pruned table misses only rows that will never authorize again. */
  ghost predicate Trimmed(rows: Table, kept: Table, now: int) {
    && (forall h :: h in rows ==> h in kept && rows[h] == kept[h])
    && (forall h :: h in kept && h !in rows ==> !Active(kept[h], now))
  }

  /** `now` is not below the cutoff of any prune of the history. */
  ghost predicate PastCutoffs(ops: seq<Op>, now: int) {
    forall i :: 0 <= i < |ops| && ops[i].Prune? ==> PruneCutoff(ops[i].now, ops[i].grace) <= now
  }

  lemma StepKeepsTrimmed(rows: Table, kept: Table, op: Op, now: int)
    requires Trimmed(rows, kept, now) && (op.Mint? ==> op.hash !in kept)
    requires op.Prune? ==> PruneCutoff(op.now, op.grace) <= now
    ensures Trimmed(Applied(rows, op), Kept(kept, op), now)
  {
  }

  lemma {:induction false} ReplayKeepsTrimmed(rows: Table, kept: Table, ops: seq<Op>, now: int)
    requires Trimmed(rows, kept, now) && NewHashes(kept, ops) && PastCutoffs(ops, now)
    ensures Trimmed(Replay(rows, ops), ReplayKept(kept, ops), now)
    decreases |ops|
  {
    if ops != [] {
      StepKeepsTrimmed(rows, kept, ops[0], now);
      assert forall i :: 0 <= i < |ops[1..]| ==> ops[1..][i] == ops[i + 1];
      ReplayKeepsTrimmed(Applied(rows, ops[0]), Kept(kept, ops[0]), ops[1..], now);
    }
  }

  lemma TrimmedAnswersAlike(rows: Table, kept: Table, now: int)
    requires Trimmed(rows, kept, now)
    ensures ActiveRows(rows, now) == ActiveRows(kept, now)
    ensures forall h :: LookupHash(rows, h, now) == LookupHash(kept, h, now)
    ensures forall repo, subject :: ListedRows(rows, repo, subject, now) == ListedRows(kept, repo, subject, now)
    ensures forall repo, subject :: Listing(rows, repo, subject, now) == Listing(kept, repo, subject, now)
    ensures forall repo :: ActiveIn(rows, repo, now) == ActiveIn(kept, repo, now)
  {
  }

  /** At `now`, a history and the same history without its prunes give the same answers. */
  ghost predicate Indistinguishable(ops: seq<Op>, now: int) {
    var rows, kept := Replay(map[], ops), ReplayKept(map[], ops);
    && (forall h :: LookupHash(rows, h, now) == LookupHash(kept, h, now))
    && (forall repo, subject :: Listing(rows, repo, subject, now) == Listing(kept, repo, subject, now))
    && |ActiveRows(rows, now)| == |ActiveRows(kept, now)|
    && (forall repo :: |ActiveIn(rows, repo, now)| == |ActiveIn(kept, repo, now)|)
  }

  /**
   Pruning cannot be observed: after every history, in whatever order its clock readings come, lookups,
   listings, active counts and the number a bulk revocation would return are those of the same history
   without prunes, at every time that is not below the cutoff of one of them.
   */
  lemma PruningIsUnobservable(ops: seq<Op>, now: int)
    requires NewHashes(map[], ops) && PastCutoffs(ops, now)
    ensures Indistinguishable(ops, now)
  {
    ReplayKeepsTrimmed(map[], map[], ops, now);
    TrimmedAnswersAlike(Replay(map[], ops), ReplayKept(map[], ops), now);
  }

  function PrunesOf(ops: seq<Op>): seq<Op> {
    if ops == [] then [] else (if ops[0].Prune? then [ops[0]] else []) + PrunesOf(ops[1..])
  }

  lemma {:induction false} PrunesAreInIt(ops: seq<Op>, now: int)
    ensures PastCutoffs(PrunesOf(ops), now) <==> PastCutoffs(ops, now)
    decreases |ops|
  {
    if ops != [] {
      var rest := ops[1..];
      PrunesAreInIt(rest, now);
      assert forall i :: 0 <= i < |rest| ==> rest[i] == ops[i + 1];
      assert PastCutoffs(ops, now) <==> PastCutoffs([ops[0]], now) && PastCutoffs(rest, now) by {
        assert [ops[0]] + rest == ops;
        PastJoin([ops[0]], rest, now);
      }
      PastJoin(if ops[0].Prune? then [ops[0]] else [], PrunesOf(rest), now);
    }
  }

  lemma PastJoin(a: seq<Op>, b: seq<Op>, now: int)
    ensures PastCutoffs(a + b, now) <==> PastCutoffs(a, now) && PastCutoffs(b, now)
  {
    if PastCutoffs(a + b, now) {
      assert forall i :: 0 <= i < |a| ==> (a + b)[i] == a[i];
      assert forall i :: 0 <= i < |b| ==> (a + b)[|a| + i] == b[i];
    }
  }

  lemma {:induction false} OnlyPrunes(kept: Table, prunes: seq<Op>)
    requires forall i :: 0 <= i < |prunes| ==> prunes[i].Prune?
    ensures PrunesOf(prunes) == prunes && ReplayKept(kept, prunes) == kept && NewHashes(kept, prunes)
    decreases |prunes|
  {
    if prunes != [] {
      OnlyPrunes(kept, prunes[1..]);
    }
  }

  /** A row that one of the prunes meets expired is gone after all of them. */
  lemma {:induction false} PrunedAway(rows: Table, prunes: seq<Op>, h: Hash, i: nat)
    requires forall j :: 0 <= j < |prunes| ==> prunes[j].Prune?
    requires h !in rows || (i < |prunes| && ExpiredBy(rows[h], PruneCutoff(prunes[i].now, prunes[i].grace)))
    ensures h !in Replay(rows, prunes)
    decreases |prunes|
  {
    if prunes != [] {
      PrunedAway(Applied(rows, prunes[0]), prunes[1..], h, if i > 0 then i - 1 else 0);
    }
  }

  /** A token minted to expire at `expiry`. */
  function MintExpiring(expiry: int): Op {
    Mint("hash", "repo", Read, Some(0), None, expiry % TWO64)
  }

  lemma OneTokenHistory(mint: Op, prunes: seq<Op>)
    requires mint.Mint? && forall i :: 0 <= i < |prunes| ==> prunes[i].Prune?
    ensures var ops := [mint] + prunes;
            var rows: Table := map[mint.hash := Minted(mint)];
            PrunesOf(ops) == prunes && NewHashes(map[], ops) && Replay(map[], ops) == Replay(rows, prunes) && ReplayKept(map[], ops) == rows
  {
    var ops := [mint] + prunes;
    var rows: Table := map[mint.hash := Minted(mint)];
    assert ops[1..] == prunes && Applied(map[], mint) == rows && Kept(map[], mint) == rows;
    OnlyPrunes(rows, prunes);
  }

  lemma EarlyReadingShows(prunes: seq<Op>, now: int) returns (ops: seq<Op>)
    requires (forall i :: 0 <= i < |prunes| ==> prunes[i].Prune?) && !PastCutoffs(prunes, now)
    ensures PrunesOf(ops) == prunes && NewHashes(map[], ops) && !Indistinguishable(ops, now)
  {
    hide Replay, ReplayKept, NewHashes, PrunesOf;
    var i :| 0 <= i < |prunes| && now < PruneCutoff(prunes[i].now, prunes[i].grace);
    var expiry := PruneCutoff(prunes[i].now, prunes[i].grace);
    var mint := MintExpiring(expiry);
    var rows: Table := map["hash" := Minted(mint)];
    ops := [mint] + prunes;
    OneTokenHistory(mint, prunes);
    assert Minted(mint).expires == Some(expiry);
    PrunedAway(rows, prunes, "hash", i);
    assert LookupHash(Replay(map[], ops), "hash", now) == Absent;
    assert ValidRepoIdText("repo");
    assert LookupHash(rows, "hash", now) == Found("repo", Read);
  }

  /**
   Exactly when a schedule of prunes cannot be observed at `now`, whatever tokens there are and in
   whatever order the clock is read: when no prune had a cutoff above `now`.
   */
  lemma ScheduleIsUnobservableIff(prunes: seq<Op>, now: int)
    requires forall i :: 0 <= i < |prunes| ==> prunes[i].Prune?
    ensures (forall ops :: PrunesOf(ops) == prunes && NewHashes(map[], ops) ==> Indistinguishable(ops, now)) <==> PastCutoffs(prunes, now)
  {
    if PastCutoffs(prunes, now) {
      forall ops | PrunesOf(ops) == prunes && NewHashes(map[], ops) ensures Indistinguishable(ops, now) {
        PrunesAreInIt(ops, now);
        PruningIsUnobservable(ops, now);
      }
    } else {
      var ops := EarlyReadingShows(prunes, now);
    }
  }

  ghost predicate PrunesWith(ops: seq<Op>, grace: nat) {
    forall i :: 0 <= i < |ops| && ops[i].Prune? ==> ops[i].grace == grace
  }

  /** A token with a second to live, then a prune. */
  function BriefToken(grace: nat): seq<Op> {
    [Mint("hash", "repo", Read, Some(1), None, 0), Prune(grace, 0)]
  }

  lemma HugeGraceKillsLiveTokens(grace: nat)
    requires TWO63 <= grace < TWO64
    ensures InClockOrder(0, BriefToken(grace)) && NewHashes(map[], BriefToken(grace)) && Clock(0, BriefToken(grace)) == 0
    ensures !Indistinguishable(BriefToken(grace), 0)
  {
    var ops := BriefToken(grace);
    var mint, prune := ops[0], ops[1];
    assert ops[1..] == [prune] && [prune][1..] == [];
    var rows: Table := map["hash" := Minted(mint)];
    assert Applied(map[], mint) == rows && Kept(map[], mint) == rows;
    assert Minted(mint).expires == Some(1) && PruneCutoff(0, grace) >= 1;
    assert Applied(rows, prune) == map[];
    assert Replay(map[], ops) == Replay(rows, [prune]) == Replay(map[], []);
    assert ReplayKept(map[], ops) == ReplayKept(rows, [prune]) == ReplayKept(rows, []);
    assert LookupHash(map[], "hash", 0) == Absent;
    assert ValidRepoIdText("repo");
    assert LookupHash(rows, "hash", 0) == Found("repo", Read);
  }

  /** With the clock in order and a grace that fits, every later time lies past every cutoff. */
  lemma {:induction false} InOrderIsPast(start: int, ops: seq<Op>, grace: nat, now: int)
    requires InClockOrder(start, ops) && PrunesWith(ops, grace) && grace < TWO63 && Clock(start, ops) <= now && -TWO63 <= now
    ensures start <= now && PastCutoffs(ops, now)
    decreases |ops|
  {
    if ops != [] {
      var rest := ops[1..];
      assert forall i :: 0 <= i < |rest| ==> rest[i] == ops[i + 1];
      InOrderIsPast(ops[0].now, rest, grace, now);
    }
  }

  /** With the clock in order, exactly which grace times are safe: those that fit the signed clock the cutoff is computed on. */
  lemma PruningIsUnobservableIff(grace: nat)
    requires grace < TWO64
    ensures (forall ops: seq<Op>, now: int ::
               InClockOrder(0, ops) && NewHashes(map[], ops) && PrunesWith(ops, grace) && Clock(0, ops) <= now ==>
                 Indistinguishable(ops, now))
            <==> grace < TWO63
  {
    if grace < TWO63 {
      forall ops: seq<Op>, now: int
        | InClockOrder(0, ops) && NewHashes(map[], ops) && PrunesWith(ops, grace) && Clock(0, ops) <= now
        ensures Indistinguishable(ops, now)
      {
        InOrderIsPast(0, ops, grace, now);
        PruningIsUnobservable(ops, now);
      }
    } else {
      HugeGraceKillsLiveTokens(grace);
      assert PrunesWith(BriefToken(grace), grace);
    }
  }

  // ── the answer of a single revocation ────────────────────────────────

  predicate RevokeReports(rows: Table, h: Hash) {
    h in rows && rows[h].revoked.None?
  }

  ghost predicate PartOf(rows: Table, kept: Table) {
    forall h :: h in rows ==> h in kept && rows[h] == kept[h]
  }

  /** Operation `i` is a prune, and by its cutoff the token `h` had expired. */
  ghost predicate PrunedAt(kept: Table, ops: seq<Op>, i: nat, h: Hash)
    requires i < |ops|
  {
    && ops[i].Prune?
    && var table := ReplayKept(kept, ops[..i]);
    h in table && ExpiredBy(table[h], PruneCutoff(ops[i].now, ops[i].grace))
  }

  ghost predicate PrunedExpired(kept: Table, ops: seq<Op>, h: Hash) {
    exists i :: 0 <= i < |ops| && PrunedAt(kept, ops, i, h)
  }

  lemma PrunedFirst(kept: Table, ops: seq<Op>, h: Hash)
    requires ops != []
    ensures PrunedExpired(kept, ops, h) <==>
            (ops[0].Prune? && h in kept && ExpiredBy(kept[h], PruneCutoff(ops[0].now, ops[0].grace)))
            || PrunedExpired(Kept(kept, ops[0]), ops[1..], h)
  {
    assert ops[..0] == [];
    forall i | 1 <= i < |ops| ensures PrunedAt(kept, ops, i, h) <==> PrunedAt(Kept(kept, ops[0]), ops[1..], i - 1, h) {
      assert ops[..i][1..] == ops[1..][..i - 1] && ops[1..][i - 1] == ops[i];
    }
    if PrunedExpired(Kept(kept, ops[0]), ops[1..], h) {
      var i :| 0 <= i < |ops[1..]| && PrunedAt(Kept(kept, ops[0]), ops[1..], i, h);
      assert PrunedAt(kept, ops, i + 1, h);
    }
    if ops[0].Prune? && h in kept && ExpiredBy(kept[h], PruneCutoff(ops[0].now, ops[0].grace)) {
      assert PrunedAt(kept, ops, 0, h);
    }
    if PrunedExpired(kept, ops, h) {
      var i :| 0 <= i < |ops| && PrunedAt(kept, ops, i, h);
      assert i > 0 ==> PrunedAt(Kept(kept, ops[0]), ops[1..], i - 1, h);
    }
  }

  /** An unrevoked row is missing exactly if it was missing before or a prune met it expired. */
  lemma {:induction false} MissingIff(rows: Table, kept: Table, ops: seq<Op>, h: Hash)
    requires PartOf(rows, kept) && NewHashes(kept, ops)
    requires h in ReplayKept(kept, ops) && ReplayKept(kept, ops)[h].revoked.None?
    ensures PartOf(Replay(rows, ops), ReplayKept(kept, ops))
    ensures h !in Replay(rows, ops) <==> (h in kept && h !in rows) || PrunedExpired(kept, ops, h)
    decreases |ops|
  {
    if ops != [] {
      var rows', kept' := Applied(rows, ops[0]), Kept(kept, ops[0]);
      StillUnrevoked(kept', ops[1..], h);
      MissingIff(rows', kept', ops[1..], h);
      PrunedFirst(kept, ops, h);
    }
  }

  lemma StillUnrevoked(kept: Table, ops: seq<Op>, h: Hash)
    requires NewHashes(kept, ops) && h in ReplayKept(kept, ops) && ReplayKept(kept, ops)[h].revoked.None?
    ensures h in kept ==> kept[h].revoked.None?
  {
    if h in kept && kept[h].revoked.Some? {
      StaysDead(kept, ops, h);
    }
  }

  lemma {:induction false} ReplayIsPart(rows: Table, kept: Table, ops: seq<Op>)
    requires PartOf(rows, kept) && NewHashes(kept, ops)
    ensures PartOf(Replay(rows, ops), ReplayKept(kept, ops))
    decreases |ops|
  {
    if ops != [] {
      ReplayIsPart(Applied(rows, ops[0]), Kept(kept, ops[0]), ops[1..]);
    }
  }

  /**
   The one answer that pruning does change is the boolean of a single revocation. It differs exactly
   for a token that would have been revoked and that some prune of the history met after its expiry
   had passed by the grace time.
   */
  lemma RevokeAnswerDiffersIff(ops: seq<Op>, h: Hash)
    requires NewHashes(map[], ops)
    ensures RevokeReports(Replay(map[], ops), h) != RevokeReports(ReplayKept(map[], ops), h) <==>
            RevokeReports(ReplayKept(map[], ops), h) && PrunedExpired(map[], ops, h)
  {
    ReplayIsPart(map[], map[], ops);
    if RevokeReports(ReplayKept(map[], ops), h) {
      MissingIff(map[], map[], ops, h);
    }
  }

  lemma RevokeAnswerCanDiffer(h: Hash, repo: RepoId)
    ensures var ops := [Mint(h, repo, Read, Some(1), None, 0), Prune(0, 1)];
            && InClockOrder(0, ops) && NewHashes(map[], ops)
            && !RevokeReports(Replay(map[], ops), h) && RevokeReports(ReplayKept(map[], ops), h)
  {
    var mint, prune := Mint(h, repo, Read, Some(1), None, 0), Prune(0, 1);
    var ops := [mint, prune];
    assert ops[1..] == [prune] && [prune][1..] == [];
    var rows: Table := map[h := Minted(mint)];
    assert Applied(map[], mint) == rows && Kept(map[], mint) == rows;
    assert Minted(mint).expires == Some(1);
    assert Applied(rows, prune) == map[];
    assert Replay(map[], ops) == Replay(rows, [prune]) == Replay(map[], []);
    assert ReplayKept(map[], ops) == ReplayKept(rows, [prune]) == ReplayKept(rows, []);
  }

  // ── revocation is final ──────────────────────────────────────────────

  lemma {:induction false} StaysDead(kept: Table, ops: seq<Op>, h: Hash)
    requires NewHashes(kept, ops) && h in kept && kept[h].revoked.Some?
    ensures h in ReplayKept(kept, ops) && ReplayKept(kept, ops)[h].revoked.Some?
    decreases |ops|
  {
    if ops != [] {
      StaysDead(Kept(kept, ops[0]), ops[1..], h);
    }
  }

  lemma {:induction false} ReplayJoin(rows: Table, kept: Table, a: seq<Op>, b: seq<Op>)
    ensures Replay(rows, a + b) == Replay(Replay(rows, a), b)
    ensures ReplayKept(kept, a + b) == ReplayKept(ReplayKept(kept, a), b)
    decreases |a|
  {
    if a == [] {
      assert a + b == b;
    } else {
      assert (a + b)[1..] == a[1..] + b;
      ReplayJoin(Applied(rows, a[0]), Kept(kept, a[0]), a[1..], b);
    }
  }

  lemma {:induction false} NewHashesSplit(kept: Table, a: seq<Op>, b: seq<Op>)
    requires NewHashes(kept, a + b)
    ensures NewHashes(kept, a) && NewHashes(ReplayKept(kept, a), b)
    decreases |a|
  {
    if a == [] {
      assert a + b == b;
    } else {
      assert (a + b)[1..] == a[1..] + b;
      NewHashesSplit(Kept(kept, a[0]), a[1..], b);
    }
  }

  /** Whether it was revoked alone or with its repository, a revoked token never resolves again. */
  lemma RevokedNeverResolves(first: seq<Op>, revoke: Op, later: seq<Op>, h: Hash, now: int)
    requires NewHashes(map[], first + ([revoke] + later))
    requires h in ReplayKept(map[], first)
    requires || revoke == Revoke(h, revoke.now)
             || (revoke.RevokeAll? && Active(ReplayKept(map[], first)[h], revoke.now)
                 && ReplayKept(map[], first)[h].repo == revoke.repo)
    ensures LookupHash(Replay(map[], first + ([revoke] + later)), h, now) == Absent
  {
    var ops := first + ([revoke] + later);
    var kept := ReplayKept(map[], first);
    NewHashesSplit(map[], first, [revoke] + later);
    ReplayJoin(map[], map[], first, [revoke] + later);
    assert ([revoke] + later)[1..] == later;
    StaysDead(Kept(kept, revoke), later, h);
    ReplayIsPart(map[], map[], ops);
  }

  // ── what the numbers count ───────────────────────────────────────────

  ghost function Accepted(rows: Table, now: int): set<Hash> {
    set h | h in rows && LookupHash(rows, h, now).Found?
  }

  predicate Readable(row: Row) {
    ValidRepoIdText(row.repo) && ParseScope(row.scope).Some?
  }

  /** The active count is the number of hashes a lookup accepts exactly when no active row is corrupted. */
  lemma CountMatchesLookupsIff(rows: Table, now: int)
    ensures |ActiveRows(rows, now)| == |Accepted(rows, now)| <==> forall h :: h in ActiveRows(rows, now) ==> Readable(rows[h])
  {
    var active, accepted := ActiveRows(rows, now).Keys, Accepted(rows, now);
    assert |ActiveRows(rows, now)| == |active|;
    assert forall h :: h in accepted <==> h in active && Readable(rows[h]);
    if forall h :: h in active ==> Readable(rows[h]) {
      assert accepted == active;
    } else {
      var h :| h in active && !Readable(rows[h]);
      SmallerWithout(accepted, active, h);
    }
  }

  lemma SmallerWithout<T>(small: set<T>, large: set<T>, x: T)
    requires small <= large && x in large && x !in small
    ensures |small| < |large|
  {
    assert |large - small| > 0 by {
      assert x in large - small;
    }
    assert large == small + (large - small);
  }

  /** A bulk revocation turns off exactly the tokens of that repository, at that time and later. */
  lemma RevokeAllIsExact(rows: Table, repo: RepoId, at: nat, h: Hash, now: int)
    requires at <= now
    ensures var rows' := Applied(rows, RevokeAll(repo, at));
            && (h in rows && rows[h].repo == repo ==> LookupHash(rows', h, now) == Absent)
            && (h !in rows || rows[h].repo != repo ==> LookupHash(rows', h, now) == LookupHash(rows, h, now))
  {
    var rows' := Applied(rows, RevokeAll(repo, at));
    if h in rows && rows[h].repo == repo {
      assert !Active(rows'[h], now);
    }
  }

  lemma LeftActive(rows: Table, repo: RepoId, at: nat, h: Hash)
    ensures h in ActiveRows(Applied(rows, RevokeAll(repo, at)), at) <==> h in ActiveRows(rows, at) && h !in ActiveIn(rows, repo, at)
    ensures h !in ActiveIn(Applied(rows, RevokeAll(repo, at)), repo, at)
  {
    if h in rows {
      var row := Applied(rows, RevokeAll(repo, at))[h];
      assert row.repo == rows[h].repo;
      assert Active(row, at) <==> Active(rows[h], at) && rows[h].repo != repo;
    }
  }

  lemma SizeOfPart<T>(all: set<T>, hit: set<T>, left: set<T>)
    requires hit <= all && forall x :: x in left <==> x in all && x !in hit
    ensures |left| == |all| - |hit|
  {
    assert left == all - hit;
    assert all == hit + left && hit !! left;
  }

  /** The number it returns is by how much the active count drops, and a second call returns zero. */
  lemma RevokeAllCounts(rows: Table, repo: RepoId, at: nat)
    ensures var rows' := Applied(rows, RevokeAll(repo, at));
            && |ActiveRows(rows', at)| == |ActiveRows(rows, at)| - |ActiveIn(rows, repo, at)|
            && |ActiveIn(rows', repo, at)| == 0
  {
    hide *;
    var rows' := Applied(rows, RevokeAll(repo, at));
    var all, hit, left := ActiveRows(rows, at), ActiveIn(rows, repo, at), ActiveRows(rows', at);
    forall h ensures h in left.Keys <==> h in all.Keys && h !in hit.Keys {
      LeftActive(rows, repo, at, h);
    }
    ActiveInIsActive(rows, repo, at);
    SizeOfPart(all.Keys, hit.Keys, left.Keys);
    assert |all| == |all.Keys| && |hit| == |hit.Keys| && |left| == |left.Keys|;
    forall h ensures h !in ActiveIn(rows', repo, at).Keys {
      LeftActive(rows, repo, at, h);
    }
    assert ActiveIn(rows', repo, at).Keys == {};
  }

  lemma ActiveInIsActive(rows: Table, repo: RepoId, at: nat)
    ensures ActiveIn(rows, repo, at).Keys <= ActiveRows(rows, at).Keys
  {
  }

  /** A lifetime is honoured only while the expiry fits the signed column; otherwise the token is born expired. */
  lemma UsableWhenMintedIff(rows: Table, op: Op)
    requires op.Mint? && op.hash !in rows && op.now < TWO63 && ValidRepoIdText(op.repo)
    requires op.ttl.Some? && op.ttl.value < TWO64
    ensures LookupHash(Applied(rows, op), op.hash, op.now) == Found(op.repo, op.scope) <==>
            0 < op.ttl.value && op.now + op.ttl.value < TWO63
  {
    var sum := op.now + op.ttl.value;
    assert sum < TWO64 ==> sum % TWO64 == sum;
    assert sum >= TWO64 ==> sum % TWO64 == sum - TWO64;
  }
}
