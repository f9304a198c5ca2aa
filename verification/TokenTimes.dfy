/** What each token operation means for every later lookup and listing, in seconds and tokens. */
module TokenTimes {
  import opened Base
  import opened Ids
  import opened Tokens
  import opened Utf8

  /** A new token resolves to its repository and scope until its lifetime is over; without one, forever. */
  lemma MintedResolvesUntil(rows: Table, op: Op, now: int)
    requires op.Mint? && op.hash !in rows && ValidRepoIdText(op.repo)
    requires op.ttl.Some? ==> op.now + op.ttl.value < TWO63
    ensures LookupHash(Applied(rows, op), op.hash, now) ==
            if op.ttl.None? || now < op.now + op.ttl.value then Found(op.repo, op.scope) else Absent
  {
  }

  /** A hash that is stored already keeps its token; a mint and a revocation leave every other token alone. */
  lemma OthersKeepTheirRows(rows: Table, op: Op, h: Hash)
    requires (op.Mint? && (h != op.hash || h in rows)) || (op.Revoke? && h != op.hash)
    ensures h in Applied(rows, op) <==> h in rows
    ensures h in rows ==> Applied(rows, op)[h] == rows[h]
  {
  }

  /** A revoked token resolves at no time; which repository it was for and who minted it stay on record. */
  lemma RevokedAtOnce(rows: Table, h: Hash, at: nat, now: int)
    requires h in rows
    ensures var rows' := Applied(rows, Revoke(h, at));
            && LookupHash(rows', h, now) == Absent && h in rows'
            && rows'[h] == rows[h].(revoked := if rows[h].revoked.Some? then rows[h].revoked else Some(at))
  {
  }

  /** What a prune keeps: every token neither revoked nor past its expiry by the grace time, unchanged. */
  lemma PruneKeepsIff(rows: Table, grace: nat, now: nat, h: Hash)
    requires now < TWO63 && grace < TWO63
    ensures var rows' := Applied(rows, Prune(grace, now));
            && (h in rows' <==>
                h in rows && rows[h].revoked.None? && (rows[h].expires.Some? ==> now - rows[h].expires.value < grace))
            && (h in rows' ==> rows'[h] == rows[h])
  {
  }

  /** A new token is in a listing of its repository, for all subjects or its own, as long as it resolves. */
  lemma MintedIsListedIff(rows: Table, op: Op, repo: RepoId, subject: Option<string>, now: int)
    requires op.Mint? && op.hash !in rows && (op.ttl.Some? ==> op.now + op.ttl.value < TWO63)
    ensures op.hash in ListedRows(Applied(rows, op), repo, subject, now) <==>
            repo == op.repo && (subject.None? || subject == op.subject) && (op.ttl.None? || now < op.now + op.ttl.value)
    ensures op.hash in ActiveRows(Applied(rows, op), now) <==> (op.ttl.None? || now < op.now + op.ttl.value)
  {
  }

  /** How a new token is shown: the first 16 characters of its hash, its scope and its times. */
  lemma MintedIsShown(op: Op)
    requires op.Mint? && op.now < TWO63 && (op.ttl.Some? ==> op.now + op.ttl.value < TWO63)
    ensures var shown := SummaryOf(op.hash, Minted(op));
            && |shown.id| == (if |op.hash| < 16 then |op.hash| else 16) && shown.id <= op.hash
            && shown.repo == op.repo && shown.scope == op.scope && shown.created == op.now
            && shown.expires == (if op.ttl.Some? then Some(op.now + op.ttl.value) else None)
            && shown.subject == match op.subject
                 case None => None
                 case Some(text) => if text == "" || |Encoded(text)| > 256 || '\0' in text then None else Some(text)
  {
  }

  /** How the two scopes are stored, and that nothing else is read as one. */
  lemma ScopeColumn(text: string)
    ensures ScopeText(Read) == "read" && ScopeText(Write) == "write"
    ensures ParseScope(text) == if text == "read" then Some(Read) else if text == "write" then Some(Write) else None
  {
  }

  /** What a lookup makes of any stored row, corrupted or not. */
  lemma LookupOfAnyRow(rows: Table, h: Hash, now: int)
    ensures LookupHash(rows, h, now) ==
            if h !in rows || rows[h].revoked.Some? || (rows[h].expires.Some? && rows[h].expires.value <= now) then Absent
            else if !ValidRepoIdText(rows[h].repo) then Absent
            else if rows[h].scope == "read" then Found(rows[h].repo, Read)
            else if rows[h].scope == "write" then Found(rows[h].repo, Write)
            else BadScope
  {
  }
}
