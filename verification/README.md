# A verified model of the artifacts git server

This Dafny project models the parts of the server whose correctness depends on the order in which
things happen: the object and ref protocol over a network of forks, the audit hash chain, the rate
limiters, the wire framing, the ref files, the token table, the fork-parent cache and the schema
migrator. Every model follows the branches of the code; the main results are statements over every
input, every history or every interleaving, and where a promised property does not hold in general, the
project proves the exact condition under which it does, with a counterexample outside of it.

`dafny verify dfyconfig.toml` checks the whole project.

## What is modelled

**Fork network and garbage collection** (`Reachability`, `ForkRelation`, `Cascade`, `Collector`,
`CollectorSafety`, `CollectorLimits`, `CollectorRaces`, `CollectorClauses`, `CollectorDeletes`, `Sweep`).
Repositories with at most one alternates source, loose objects with creation times, packs, refs and an
immutable object graph. `Collector` is a state machine at the grain of the code's own reads and writes. A
collection takes its network, then one listing entry, one ref read or one guarded delete at a time; a push
walks its closure one object at a time; a fork links its object store, reads the refs of its source one by
one and writes them later; a delete request checks for forks first and removes repositories afterwards.
All of these interleave with object writes, ref updates, ref deletions and the steps of any number of
other collections. The theorem is `NothingReliedOnIsLost`, with `NoRefPointsIntoAHole` as the part about
refs, under a restriction on the environment (`Benign`) that is weaker than "nothing is deleted in the
network". It limits eight kinds of step. For each of them a history from the empty server in which that
one step is not benign ends with a ref into a hole (`CollectorRaces`, `CollectorClauses`).
`FinishingIsSafeIff` tells exactly when a run that is disturbed no more loses something that a ref, a push
or an unfinished fork relies on, and `FirmnessDecidesTheRaces` that its condition turns at the step that is
not benign. `CollectorDeletes` tells exactly when deletions leave every repository its source. `Sweep` is
the same pass as imperative code, run by itself; an undisturbed run of the state machine refines it.

**Ref writers** (`RefStore`, `BranchWriters`, `BranchHandlers`, `Push`). Both compare-and-swap stores, the
one in memory that the server's tests use and the deployed one that runs `git update-ref`, whose refusals
and failures are a parameter; the interleaving of any number of REST commits, merges and arbitrary pushes
over either store; and, over the deployed store, the two endpoints run alone and the push: unpack,
connectivity gate, one swap per ref, one report line per ref.

**Audit log** (`AuditChain`, `AuditTamper`, `AuditFields`). The SHA-256 function is a parameter about
which only its 32-byte output length is assumed; results that need more name the collision that would be
required (`Collides`, `NoCollision` over the inputs at hand), because no function to 32 bytes is injective.

**Rate limiters** (`TokenBucket`, `Eviction`), **the wire** (`PktLine`, `SideBand`, `Utf8`, and `PushReport`, which
joins the framing to `Push` and asks what a client learns), **ref files**
(`Text`, `SortedRefs`, `RefTree`, `RefFiles`, `PackedRefs`, `RefReaders`, `Ids`, `IdsExact`), **tokens** (`Tokens`,
`TokenTimes`), **fork-parent
cache** (`AlternatesCache`) and **migrations** (`Migrator`).

Clocks, directory orders, subprocess answers (ancestor test, tree merge, closure walk, unpacking,
refused or failed ref updates), error texts, unlink failures and canonical paths are parameters.

## Where the code differs from what is written about it

- A changed audit row is reported at that row, not at its successor; only a row rewritten to be
  consistent with itself is reported at its successor, a deleted last row or a pruned tail goes unseen,
  and a prune that drops a row while a newer one stays makes verification fail at the first such survivor
  (`EditVerdict`, `DeletionVerdict`, `RetentionVerdict`).
- The NUL separators do not always separate: the hashed bytes of an event determine its fields exactly when
  none of its own fields holds a NUL byte (`UnambiguousIffClean`), and only then does the tail hash commit to
  the fields and not just to the bytes (`TailCommitsToFieldsIff`).
- The comment "control flow invariant broken" in the merge endpoint marks a path that is taken exactly
  for strategy `merge` on an absent target branch (`PlanMerge`, `MergeBranches`).
- Clock readings are taken before the bucket is locked, and a reading that arrives late refills the same
  second twice. The bound of capacity plus rate times T holds of a run of calls, for every budget, exactly
  when the clock moves forward by at most T in all along its readings (`BoundHoldsIffTravelWithin`).
- Pruning is unobservable to lookups, listings and counts exactly at times that are not below the cutoff of
  a prune (`ScheduleIsUnobservableIff`), so with the clock in order exactly for grace times below 2^63
  seconds (`PruningIsUnobservableIff`), and the boolean of a single revocation changes exactly for a token that some
  prune met past its expiry and grace (`RevokeAnswerDiffersIff`).
- A lifetime whose expiry does not fit a signed 64-bit number yields a token that is born expired
  (`UsableWhenMintedIff`), and a minimum object age of that size turns the age guard off
  (`GuardHonoursAgeIff`).
- Time stamps alone do not keep the fork-parent cache right: a lookup in flight can store a parent after
  the entry was invalidated, and a parent stored for an absent file is reported again between the removal
  and the invalidation (`StaleInsertAfterInvalidate`, `StaleEntryBeforeInvalidate`).
- The stated bound on compare-and-swap successes (one per distinct input, duplicates never both succeed)
  fails when a value comes back in between (`DuplicatesCanBothSucceed`); a repeated update is accepted exactly
  then (`RepeatAcceptedIff`).
- The two stores differ. A push command whose ids are both zero never applies in memory and deletes whatever
  the ref holds over git (`ZeroIsNeverStored`); next to a branch `a`, a branch `a/b` conflicts over git with
  nothing there and nothing expected (`NestedNameConflicts`), so the endpoints can answer with a conflict that
  no other request caused, and the order of the updates of one push can matter (`FreedPathLetsAnUpdateLand`);
  `DistinctUpdatesAreIndependent` tells exactly when it does not.
- A collection protects neither a fork that has read its source's refs and not yet written them, nor a fork
  made during the run whose source then drops or forces a ref, nor an old object pushed again after the
  listing. What an undisturbed end of a run loses is decided by whether everything relied on has a copy the
  run cannot take (`FinishingIsSafeIff`, `FirmnessDecidesTheRaces`).
- The fork check of a delete request protects no one by itself: it is overtaken by exactly the forks, made
  before the removal, of a repository still to be removed (`CheckHoldsIffNotOvertaken`), and every repository
  keeps its source if and only if forks are made of repositories that are there and the check holds again
  right before each removal (`SourcesAlwaysExistIff`).
- The report of a push tells every outcome, but not always whose: a rejected name with a space is read up to
  the space, and an unpack error whose text is `ok` reads as success (`ClientLearns`).
- Migrations run in list order, not in numeric order; crash and resume is harmless exactly for strictly
  increasing pending versions (`ResumeIff`).
- A peel line goes to the nearest line before it that passes both validators, so not to its own ref exactly
  when the line of that ref does not (`PeelAttachedIffGood`).
- A branch whose name ends in white space that is not ASCII is acceptable, but a HEAD that names it is read
  without that ending (`SymbolicHeadIff`).
- Branch names the REST endpoints accept can be refused by the ref store after the commit was built
  (`BranchNamesAndRefNames`).

## Model

| member | source | states |
|---|---|---|
| `CollectorSafety.NoRefPointsIntoAHole` | src/gc.rs:198-257 | from the empty server, over every benign interleaving of the single steps of forks, deletions, writes, pushes, commits and any number of concurrent collections, the whole closure of every ref stays readable through its repository and its alternates chain |
| `CollectorSafety.NothingReliedOnIsLost` | src/gc.rs:198-257 | more generally, over the same histories nothing is lost that a ref, a push since its walk saw it, or a fork since it read it relies on |
| `CollectorSafety.StepKeepsInv` | src/gc.rs:198-257 | each of the twenty-three kinds of step keeps the invariant behind these theorems |
| `CollectorSafety.RunDeleteKeepsInv` | src/gc.rs:218-248 | a guarded delete takes no copy that a ref, a staged upload or a fork in the making still relies on |
| `CollectorSafety.RunReadKeepsInv` | src/gc.rs:211-216 | reading one ref of a member trades "will be reported" for "was reported" without losing an object |
| `CollectorSafety.RunStartKeepsInv` | src/gc.rs:132-139 | whatever network the walk returned, all its refs reach is still to be reported, and nothing relied on elsewhere is at risk if it outlasts the run or has another copy |
| `CollectorSafety.RunListOneKeepsInv` | src/object_store/mod.rs:334-402 | an entry that joins the listing is exactly as young as the object was on disk, so objects may come and go while the listing is under way |
| `CollectorSafety.AdvanceKeepsInv` | src/smart_http.rs:539-585 | moving a ref to a gated tip keeps every closure readable and, for refs still to be read, keeps what they reach |
| `CollectorSafety.SeeKeepsInv` | src/git_cmd.rs:245-268 | what a walk sees one object at a time, or finds reached by a ref of the repository or of its sources, it may rely on from then on |
| `CollectorSafety.SnapshotWriteKeepsInv` | src/storage.rs:366-424 | a fork may write the refs it has read at any later time, whatever has become of the refs of its source |
| `CollectorSafety.SnapshotReadKeepsInv` | src/storage.rs:380-398 | what a fork reads of its source is readable in the fork through its alternates chain |
| `CollectorSafety.DeleteNextKeepsInv` | src/rest/repos.rs:235-296 | the next removal of a delete request, any time after its check, keeps every other closure readable |
| `CollectorLimits.NoRunsNoRestriction` | src/gc.rs:198-257 | while no collection runs, the restriction asks nothing of pushes, commits, ref deletions and the ref reads and writes of forks |
| `CollectorLimits.ExactNetworkCoversRefs` | src/gc.rs:276-300 | if the walk returned the exact network and nothing is being uploaded or copied, a collection may start without any condition on refs |
| `CollectorLimits.GatedTipIsReadable` | src/smart_http.rs:539-585 | from the end of its walk to its ref update, and whenever that update is possible, the whole closure of a gated tip can be read, although the walk took time and collections ran in between; only what the walk left to the replaced value needs a ref of the repository that still holds it |
| `CollectorLimits.FinishingIsSafeIff` | src/gc.rs:198-248 | whatever happened before, a run that goes on to its end undisturbed loses nothing that a ref, an upload or a fork in the making relies on, if and only if all of it has, now, a copy the run cannot take; and the same for refs alone |
| `CollectorRaces.FirmnessDecidesTheRaces` | src/gc.rs:198-248 | in all three collections below that end with a hole that condition holds before the step that is not benign and fails after it, and the run then loses the object by itself |
| `CollectorLimits.UndisturbedRunLeaves` | src/gc.rs:198-248 | a run that is never disturbed leaves exactly the loose objects that are younger than the cutoff or reached by a ref of its network |
| `CollectorLimits.PackedIsFirm` | src/gc.rs:218-248 | an object in a pack is out of reach of every run |
| `CollectorLimits.LastRunEnds` | src/gc.rs:249-262 | when the last run ends every stored copy is out of reach |
| `CollectorLimits.RewriteAfterListingDoesNotProtect` | src/gc.rs:222-234 | a doomed object written again after the listing is young on disk and is deleted all the same |
| `CollectorRaces.ForkThenRefDeleteBreaksTheFork` | src/gc.rs:198-216 | a fork made after the network was taken, followed by a ref deletion in the source, ends with the ref of the fork pointing into a hole |
| `CollectorRaces.SnapshotInFlightBreaksTheFork` | src/storage.rs:380-422 | a ref that a fork has read and not yet written, dropped at the source before a collection starts, ends in a hole |
| `CollectorRaces.ForkAfterDeleteCheckIsOrphaned` | src/rest/repos.rs:276-296 | a repository forked between the check and the removal of a delete request leaves the fork without its objects |
| `CollectorRaces.PushAfterListingBreaksTheRepo` | src/gc.rs:205-234 | an old object pushed again after the listing passes the connectivity gate, is taken, and the push moves its ref into the hole |
| `CollectorClauses.ForcedPushDuringRunBreaksTheFork` | src/gc.rs:198-216 | a forced push over a ref still to be read takes away what a fork made during the run inherited |
| `CollectorClauses.RemovalDuringScanLosesThePush` | src/gc.rs:211-216 | a member removed while its refs are being read costs a push the object only that member still reached |
| `CollectorClauses.ReusedIdGetsTheOldPush` | src/storage.rs:235-300 | a push on its way to a deleted fork lands in a new repository of the same id, without its objects |
| `CollectorClauses.ForcedDeleteOrphansTheFork` | src/rest/repos.rs:276-296 | a delete request that goes ahead in spite of a fork leaves the fork without its objects |
| `CollectorDeletes.SourcesAlwaysExistIff` | src/rest/repos.rs:235-296 | over every history, benign or not, every repository keeps its source throughout, if and only if every fork is made of a repository that is there and no repository is removed while another one names it |
| `CollectorDeletes.CheckStepIff` | src/rest/repos.rs:276-296 | a checked delete request stays safe for what is left of it through every step, except exactly a fork of a repository still to be removed that will not go first |
| `CollectorDeletes.CheckHoldsIffNotOvertaken` | src/rest/repos.rs:276-296 | so over every history after the check the request is safe throughout if and only if no such fork comes in between |
| `CollectorDeletes.OvertakesIffListed` | src/rest/repos.rs:276-296 | for an id outside the request those are the forks of any repository still to be removed |
| `CollectorDeletes.SafeRemovalKeepsSources` | src/rest/repos.rs:276-296 | while the request is safe its next removal leaves every repository its source |
| `Sweep.Preview` | src/gc.rs:126-170 | the network is sorted and exact; counts, bytes and the capped sample are those of the loose objects no ref of it reaches; it fails exactly when a walk fails |
| `Sweep.SampleSize` | src/gc.rs:88-160 | the sample holds every unreachable object, or 32 of them |
| `Sweep.Run` | src/gc.rs:191-262 | with refs and a store that may change between the two rounds, removes exactly the objects that no ref of the network reaches in the second one, that are at least the minimum age in seconds old and not stuck, counts as too young exactly the younger unreached ones, and removes nothing when a walk fails |
| `Sweep.DeleteGarbage` | src/gc.rs:218-248 | the delete loop against the set it has to remove, with its three counters |
| `Sweep.ObjectStore.DeleteLoose` | src/object_store/mod.rs:404-413 | removes the object, or reports that it is gone or that the unlink failed |
| `Sweep.NothingUnaccounted` | src/gc.rs:218-262 | removed, spared and stuck objects add up to the unreachable ones, no reachable object is removed, and bytes are conserved |
| `Sweep.PassIsAnUndisturbedRun` | src/gc.rs:191-262 | a run of the interleaved model that is never disturbed, in whatever order it takes its own steps, leaves exactly the objects this pass leaves |
| `Sweep.GuardHonoursAgeIff` | src/gc.rs:199-203 | the guard protects everything younger than the minimum age if and only if that age fits a signed 64-bit number |
| `ForkRelation.NetworkAround` | src/gc.rs:276-300 | terminates on any relation, cyclic or not, and returns exactly the connected component of the seed, each member once |
| `ForkRelation.SameNetworkFromAnyMember` | src/gc.rs:276-300 | every member of a network sees the same network |
| `ForkRelation.ForksOf` | src/reads/mod.rs:874-901 | the forks of a repository are the listed repositories whose source it is, never itself |
| `Cascade.CascadeDeleteOrder` | src/rest.rs:235-267 | returns exactly the seed and its transitive forks, each once, every fork before its source, the seed last; the level loop ends on cycles too |
| `Cascade.CascadeIsSafeIff` | src/rest.rs:235-267 | deleting in that order never leaves a live repository without its alternates target, if and only if the seed is not its own transitive fork through another repository |
| `RefStore.MemRefStore.CasUpdate` | src/refs.rs:373-393 | the swap is applied exactly when the current value is the expected one (none meaning absent); otherwise nothing changes and the current value is returned |
| `RefStore.MemRefStore.CasDelete` | src/refs.rs:432-452 | the same for deletion, where naming no value is unconditional |
| `RefStore.FsRefStore.CasUpdate` | src/refs.rs:211-244 | applied exactly when git, whose answer may change from one attempt to the next, neither refuses nor fails and the current value is the expected one, where the zero id and none both mean absent; any refusal is a conflict that shows the current value |
| `RefStore.FsRefStore.CasDelete` | src/refs.rs:246-290 | the same for deletion, where naming no value or the zero id is unconditional |
| `RefStore.DeleteOutcome` | src/refs.rs:246-290 | a deletion that git carries out and that names a value removes the ref if and only if it holds that value; otherwise it is a conflict with what the ref holds and changes nothing |
| `RefStore.UpdateOutcome` | src/refs.rs:211-244 | an update that git carries out moves a ref that holds the named value, creates an absent ref if none is named, and is otherwise a conflict that changes nothing |
| `RefStore.UnservedOutcome` | src/refs.rs:228-243 | what git refuses is a conflict with the current value, what it fails at an error, and neither changes a ref |
| `RefStore.NestedNameConflicts` | src/refs.rs:222-243 | a branch below an existing branch is a conflict over git and an update in memory |
| `RefStore.HistoryIsLinear` | src/ids.rs:720-777 | over either store, in every history the accepted requests for a ref form a chain, each naming what the one before left, and the final value is what the last of them left |
| `RefStore.RepeatAcceptedIff` | src/ids.rs:720-777 | after a moving update was accepted, the same update later in the history is accepted if and only if another request came in between, was the last accepted one for the ref, and left the expected value |
| `RefStore.DuplicatesCanBothSucceed` | src/ids.rs:720-777 | and then it is, so accepted updates are not bounded by the number of distinct inputs |
| `RefStore.OneRivalWins` | src/ids.rs:720-777 | of any number of writers that saw the current value exactly the first wins and all others conflict with its value |
| `RefStore.LateRivalsLose` | src/ids.rs:720-777 | writers that saw a value the ref no longer has all conflict and change nothing |
| `RefStore.OthersUntouched` | src/refs.rs:373-452 | no history of requests touches a ref it does not name |
| `BranchWriters.NoCommitIsLost` | src/commits.rs:266-290 | over every interleaving of commits, merges and forward pushes, each branch tip is an ancestor of, or equal to, every later tip |
| `BranchWriters.NothingLostIffPushesForward` | src/smart_http.rs:577-585 | over every interleaving of commits, merges and arbitrary pushes and deletions, no branch leaves a commit behind if and only if every push that takes effect creates a ref or moves it to a descendant |
| `BranchWriters.AcknowledgedStaysReachable` | src/commits.rs:266-290 | a commit reported to a client, and everything its request was based on, is on the branch in every later state |
| `BranchWriters.MergeHoldsBothBranches` | src/merge.rs:153-325 | whatever happens in between, a successful merge reports a commit that contains the source and the target as it read them, is one of the two or a commit of exactly both, and is on the target branch |
| `BranchWriters.PlanMerge` | src/merge.rs:153-245 | the five ways a merge can go, each with its exact condition; the path that finds no target is taken exactly for strategy `merge` on an absent branch |
| `BranchWriters.SwapAppliesIffBranchStood` | src/merge.rs:296-325 | on an acyclic commit graph a swap that names a tip read earlier matches if and only if the branch never moved in between |
| `BranchWriters.ForcedPushLosesCommits` | src/smart_http.rs:650-662 | a push that names the current tip may move the branch to an unrelated commit or delete it, so the theorem needs fast-forward pushes |
| `BranchHandlers.MergeBranches` | src/merge.rs:115-325 | the endpoint run alone over the deployed store: for well-formed tips the outcome is that of the plan and of one swap, exactly; failures change nothing, a success moves at most the target to a commit holding both branches, and a ref conflict can only be a refusal by git, with the expected value still current |
| `BranchHandlers.CreateCommit` | src/commits.rs:236-290 | succeeds exactly for an acceptable branch name, a known parent, a well-formed new id, a tip equal to that parent and a ref update that git carries out; the branch then ends in the new commit, whose only parent is the named one |
| `BranchHandlers.MergeFromScratch` | src/merge.rs:115-325 | the two endpoints on an empty repository: a commit on each of two branches and a merge, with the reported commit and the refs it leaves |
| `Ids.BranchNamesAndRefNames` | src/ids.rs:239-278 | the ref store accepts a branch exactly when the REST check does, except for parts that look like options and the branch `@` |
| `IdsExact.RefNameIff` | src/ids.rs:239-278 | the accepted ref names, position by position: `HEAD`, or no forbidden character or pair, no final dot, and no slash-delimited piece that is empty, starts with a dot or a dash or ends in `.lock` |
| `IdsExact.BranchNameIff` | src/commits.rs:460-490 | the accepted branch names likewise: pieces may start with a dash, and `@` is refused |
| `IdsExact.ObjectIdIff` | src/ids.rs:176-186 | an object id is 40 characters out of sixteen |
| `IdsExact.RepoIdIff` | src/storage.rs:107-117 | a repository id is 4 to 64 lower-case letters, digits, dashes and underscores |
| `IdsExact.RepoIdBytesIff` | src/storage.rs:107-117 | the check on bytes is the one on the text they encode |
| `Push.ApplyRefUpdate` | src/smart_http.rs:629-675 | which updates land, what they leave, and the reason given otherwise, a failing git included |
| `Push.UpdateLandsIff` | src/smart_http.rs:650-675 | a well-formed update that git carries out and that names an old id lands if and only if the ref holds it; without one a creation lands if and only if there is no ref; the ref then holds the new id or is gone, and otherwise the line says non-fast-forward |
| `Push.MalformedIsRejected` | src/smart_http.rs:634-649 | a malformed update is rejected with the first thing wrong with it and changes nothing |
| `Push.TipsIff` | src/smart_http.rs:539-550 | the gate looks at the new ids of exactly the updates that are no deletions |
| `Push.ReceivePack` | src/smart_http.rs:455-592 | a failed unpack or a failed walk rejects every update with its reason and changes no ref; otherwise the refs are the swaps in request order and every line reports its own swap at its turn |
| `Push.SwapEach` | src/smart_http.rs:577-585 | the swap loop against the fold of single updates |
| `Push.UnnamedRefsUntouched` | src/smart_http.rs:577-585 | a push changes no ref it does not name |
| `Push.DistinctUpdatesAreIndependent` | src/smart_http.rs:577-585 | with distinct names every update has the last word on its own ref, and it is judged as against the refs before the push if and only if it is malformed, git answers it the same at its turn, or it would conflict anyway and git fails neither time |
| `Push.FreedPathLetsAnUpdateLand` | src/smart_http.rs:577-585 | over git a deletion earlier in the push can free the path of a later branch, which would have been refused by itself |
| `Push.ZeroIsNeverStored` | src/smart_http.rs:650-662 | no ref ever holds the zero id; a command that both creates and deletes lands exactly in a store that reads the zero id as none and does not refuse, and then deletes the ref |
| `Push.PushCanLandInPart` | src/smart_http.rs:577-585 | one update of a push can land while another conflicts |
| `Push.ReceivePackKeepsHealth` | src/smart_http.rs:534-585 | with a truthful walk no push, however answered, leaves a ref without its whole closure |
| `Push.WalkImpliesComplete` | src/git_cmd.rs:245-268 | leaving out what the existing refs reach costs the walk nothing while those refs are healthy |
| `Push.GateIsNecessary` | src/smart_http.rs:534-585 | letting one incomplete tip through would break the repository |
| `AuditChain.AuditStore.Record` | src/audit.rs:248-297 | appends one row that names the newest stored hash and stores its own |
| `AuditChain.AuditStore.PruneOlderThan` | src/audit.rs:362-367 | keeps exactly the rows at or above the cutoff and returns how many went |
| `AuditChain.AuditStore.VerifyChain` | src/audit.rs:379-424 | the verifier loop returns the verdict of the recursive definition |
| `AuditChain.RecordKeepsVerdict` | src/audit.rs:248-297 | recording on any table, intact or not, adds one verified row or leaves the verdict as it was |
| `AuditTamper.RecordedLogVerifies` | src/audit.rs:248-297 | every serialised run of records verifies in full |
| `AuditTamper.WalkSeesChainedRows` | src/audit.rs:379-389 | rows from before the chain do not take part in verification |
| `AuditTamper.VerifiedIffChain` | src/audit.rs:389-423 | a table verifies exactly when its chained rows form a chain, and the verdict counts them |
| `AuditTamper.EditVerdict` | src/audit.rs:405-420 | after any chained row of an intact log is overwritten: which check fires, at which row, or that none does |
| `AuditTamper.OneEditStopsAtTheRow` | src/audit.rs:405-420 | a changed hashed field, previous hash or stored hash is each reported at that row; a field edit can only hide behind a collision |
| `AuditTamper.NormalisedEditsAreInvisible` | src/audit.rs:64-84 | edits that the normalisation of repository and request id identifies are never seen |
| `AuditTamper.RepoEditIff` | src/audit.rs:64-84 | overwriting the repository of a row is reported at that row, or exhibits a collision, if and only if a well-formed id changes, appears or disappears; otherwise the log verifies |
| `AuditTamper.RequestEditIff` | src/audit.rs:64-84 | the same for the request id, where a missing one passes for an empty one |
| `AuditTamper.Layout` | src/audit.rs:64-84 | the hashed bytes in order: previous hash, time, event, actor, repository, fields, request, with a NUL between two of the last five |
| `AuditTamper.TimeBytes` | src/audit.rs:64-84 | the time is hashed as eight bytes of the two's complement, the lowest first |
| `AuditTamper.FirstRowNamesZeros` | src/audit.rs:248-297 | the first row names 32 zero bytes |
| `AuditTamper.DeletionVerdict` | src/audit.rs:405-410 | a deleted row is reported at its successor, a deleted last row leaves no trace |
| `AuditTamper.RetentionVerdict` | src/audit.rs:362-423 | the whole verdict after a prune of an intact log: the rows before the first one dropped verify, and if a later row survives, verification stops at the first survivor; so it verifies if and only if the surviving chained rows are a prefix of the old chain |
| `AuditTamper.UnserialisedAppendsBreak` | src/audit.rs:250-261 | two writers that read the same tail leave a log that verifies if and only if the first row's hash happens to be that tail; otherwise it fails at the second row |
| `AuditFields.TailHashCommits` | src/audit.rs:64-84 | two tables that verify and end in the same hash hold the same hashed bytes in the same order, whatever their fields hold |
| `AuditTamper.HashCommitsToPast` | src/audit.rs:64-84 | without collisions a shared row hash means a shared past |
| `AuditFields.UnambiguousIffClean` | src/audit.rs:64-84 | the hashed bytes of an event determine its fields, against every other event, if and only if none of its own fields holds a NUL byte |
| `AuditFields.TailCommitsToFieldsIff` | src/audit.rs:64-84 | the tail hash commits to the fields of a log if and only if no chained row holds a NUL byte in a field |
| `TokenBucket.RateLimiter.Check` | src/rate_limit.rs:111-146 | the answer and the new bucket of one call; administrators are exempt |
| `TokenBucket.IpRateLimiter.Check` | src/ip_rate_limit.rs:64-84 | the same for the per-address limiter |
| `TokenBucket.RateLimiter.EvictStale` | src/rate_limit.rs:156-159 | the loop removes a bucket only if it was last touched at least the stale time ago, leaves none such, and changes no bucket that stays |
| `TokenBucket.IpRateLimiter.EvictStale` | src/ip_rate_limit.rs:94-97 | the same per address |
| `TokenBucket.CallBalance` | src/rate_limit.rs:129-144 | a call spends only what the bucket held or was refilled with, and never more than the capacity |
| `TokenBucket.WindowBound` | src/rate_limit.rs:120-144 | in any order of readings, a window admits at most the capacity plus the refill for its forward clock movement |
| `TokenBucket.WindowBoundInClockOrder` | src/rate_limit.rs:120-144 | with readings in clock order a window of length T admits at most capacity + rate * T |
| `TokenBucket.BoundHoldsIffTravelWithin` | src/rate_limit.rs:120-144 | for every run of readings and every T: all budgets and buckets keep the bound of capacity plus rate times T, if and only if the clock moves forward by at most T in all along the readings |
| `TokenBucket.LateReadingsTravelFurther` | src/rate_limit.rs:121-132 | so with late readings the bound of one second fails for calls that all lie within it |
| `TokenBucket.LazyRefillEqualsOne` | src/rate_limit.rs:129-132 | refilling in pieces, at any number of rejected calls, equals refilling once |
| `TokenBucket.RetryAfterIsExact` | src/rate_limit.rs:134-141 | after a rejection a call m whole seconds later is admitted if and only if m is at least the retry value |
| `TokenBucket.PerMinuteGain` | src/rate_limit.rs:63-69 | a drained bucket of a per-minute budget gains exactly that many tokens in 60 seconds, up to its capacity |
| `TokenBucket.ConfiguredBudgets` | src/rate_limit.rs:76-83 | burst and sustained calls per minute of the four classes and of the unauthenticated routes |
| `TokenBucket.NewKeyAdmitsItsBurst` | src/rate_limit.rs:120-144 | of calls at one instant a key never seen before admits exactly the first ones up to the burst |
| `TokenBucket.LateReadingRefillsNothing` | src/rate_limit.rs:129-132 | a reading before the last one refills nothing |
| `Eviction.EvictionUnobservableIff` | src/rate_limit.rs:148-159 | arbitrary evictions change no answer and no retry value of any clock-ordered history, if and only if every budget refills from empty within the stale time |
| `Eviction.EvictionIsSilent` | src/rate_limit.rs:148-159 | the evicting limiter refines the one that never forgets, from any two related states |
| `Eviction.EagerEvictionShows` | src/rate_limit.rs:148-159 | with too short a stale time a burst on each side of an eviction gets a different answer |
| `Eviction.DefaultsAreAmple` | src/app.rs:531-548 | the configured budgets and the one-hour setting meet the condition, for both limiters |
| `PktLine.ReadIsExact` | src/pkt_line.rs:60-84 | a frame and a tail are returned if and only if the buffer is some spelling of its length, its payload and the tail; at least four bytes are consumed |
| `PktLine.PktIter.Next` | src/pkt_line.rs:98-115 | yields the next item of the buffer, ends after an error, and shortens the buffer by at least four bytes per frame |
| `PktLine.Collect` | src/pkt_line.rs:86-115 | iterating to the end yields exactly the items of the buffer |
| `PktLine.FramesRoundTrip` | src/pkt_line.rs:60-145 | iterating over the encoding of any list of frames returns that list |
| `PktLine.PrefixParses` | src/pkt_line.rs:137-139 | the printed length prefix of every number below 65536 reads back as that number |
| `PktLine.DataOnTheWire` | src/pkt_line.rs:126-141 | a data frame is four lower-case hexadecimal digits for the payload length plus four, then the payload, of at most 65516 bytes |
| `PktLine.DigitsByPlace` | src/pkt_line.rs:60-70 | a prefix is read digit by digit in either case, and a leading plus counts for nothing |
| `PktLine.ReadErrors` | src/pkt_line.rs:60-84 | which error is reported for which malformed buffer |
| `PktLine.Writer.WriteData` | src/pkt_line.rs:126-141 | appends one frame whose payload is cut at the cap |
| `SideBand.WriteReport` | src/smart_http.rs:527-592 | the report loop writes the lines as frames and a flush |
| `SideBand.Wrap` | src/smart_http.rs:599-613 | the chunk loop writes the report in band 1 and a flush |
| `SideBand.Respond` | src/smart_http.rs:527-617 | the body is the report, or the same bytes in side band 1 if the client asked for it |
| `SideBand.NestedRoundTripIff` | src/smart_http.rs:594-617 | a client gets back exactly the lines of the report, through both framings, if and only if every line is within the payload cap |
| `SideBand.UnbandReturnsReport` | src/smart_http.rs:599-613 | dropping the band byte and joining up to the flush returns the report bytes |
| `SideBand.OneChunkOnTheWire` | src/smart_http.rs:599-613 | a report of at most 65515 bytes travels behind one byte of value one |
| `SideBand.FirstChunk` | src/smart_http.rs:599-613 | a longer one is cut after 65515 bytes |
| `PushReport.ClientLearns` | src/smart_http.rs:527-617 | from the body a client learns the outcome of every update in order, however long the lines are and with or without the side band, and the name of an update exactly if it has no space and ends before the payload cap |
| `PushReport.AnswerPush` | src/smart_http.rs:455-617 | a push and its answer: an update is heard to land if and only if the gates were passed and its swap was carried out at its turn; with distinct names the ref is then as the client asked, and otherwise as it was |
| `PushReport.LinesRead` | src/smart_http.rs:527-592 | the text of each kind of line |
| `PushReport.CommandNameSurvivesIff` | src/git_wire/proto.rs:320-340 | for a name that came in a command line only a space spoils it |
| `RefFiles.EnumerateRefs` | src/refs.rs:467-571 | the packed loop and the directory stack loop return the sorted list of all refs, good loose files before packed lines |
| `RefFiles.ScanPacked` | src/refs.rs:471-513 | the packed-refs loop against the fold over its lines |
| `RefFiles.ListRefs` | src/rest.rs:272-298 | returns the sorted list of every non-empty loose file and the first packed line of each other name |
| `RefFiles.WalkRefs` | src/rest.rs:300-321 | the recursive walk appends every non-empty file below a directory, in tree order |
| `RefFiles.WalkCollects` | src/rest.rs:300-321 | so it collects every non-empty loose file once |
| `RefTree.PathsIn` | src/refs.rs:516-566 | every file found below a directory has a path below that directory |
| `RefTree.FoundIff` | src/refs.rs:516-566 | a file is found if and only if some way down the directories leads to it, under the path of that way |
| `RefFiles.ReadHead` | src/refs.rs:581-619 | resolves HEAD by the target's file, else the first good packed line, else unborn; detached and malformed heads are told apart |
| `RefReaders.SymbolicHeadReads` | src/refs.rs:581-612 | a HEAD `ref: <target>` for an acceptable target under `refs/` reads as the enumerated ref if there is one and otherwise as unborn, if and only if a good loose file decides or the first and last good packed lines of the target agree |
| `RefReaders.SymbolicHeadIff` | src/refs.rs:581-612 | such a HEAD is followed to its target if and only if the target does not end in white space |
| `RefReaders.DetachedHeadReads` | src/refs.rs:612-614 | a HEAD of one object id and a newline is detached there |
| `RefReaders.BadHeads` | src/refs.rs:581-619 | a missing HEAD, one with a bad target and one with any other text are told apart |
| `RefReaders.LooseFileReads` | src/refs.rs:516-566 | a loose file of one object id and a newline decides for all three readers, whatever is packed |
| `RefReaders.PackedLineReads` | src/refs.rs:471-513 | a packed-refs file of one line does where there is no loose file |
| `RefReaders.HeaderNamesNothing` | src/rest.rs:285-298 | the header line of a packed-refs file is listed as no ref |
| `RefReaders.EnumeratedIsValid` | src/refs.rs:471-566 | only acceptable names with well-formed ids are enumerated |
| `SortedRefs.Sorted` | src/refs.rs:569-571 | the list of a map in the order of its names |
| `SortedRefs.SortedListIsUnique` | src/refs.rs:569-571 | that list is unique, so the order of collection does not show |
| `Text.LessIff` | src/refs.rs:569-571 | the order of names is decided at the first character that differs, or by length |
| `Text.LinesCrLf` | src/refs.rs:471-474 | a carriage return before the newline is no part of a line |
| `PackedRefs.SnapshotRefsToPacked` | src/storage.rs:366-424 | writes the header and the sorted lines, and no file for no refs |
| `PackedRefs.SingleRefText` | src/storage.rs:403-421 | the text of the file for a source with one ref |
| `PackedRefs.ForkSeesTheRefs` | src/storage.rs:403-421 | enumeration on a new fork yields exactly the source's refs with acceptable names, with their ids and nothing peeled |
| `PackedRefs.RoundTripIffNamesValid` | src/refs.rs:471-513 | nothing is lost if and only if every name satisfies the validator |
| `PackedRefs.ForkThenEnumerate` | src/storage.rs:235-288 | copying and enumerating returns the sorted list of the source's refs |
| `PackedRefs.NewlineForgesARef` | src/ids.rs:257-262 | a name with a newline would be read back as two refs, which the validator's exclusion of controls prevents |
| `RefReaders.EnumeratedIs` | src/refs.rs:471-566 | name by name, enumeration reports the good loose file, else the last good packed line |
| `RefReaders.EnumerationAgreesWithListingIff` | src/rest.rs:272-321 | the two readers give the same refs with the same ids if and only if every non-empty loose file is well-formed and, for every other name, the first packed line is also the last good one |
| `RefReaders.HeadAgreesIff` | src/refs.rs:581-612 | for a target under `refs/`, HEAD resolves to what enumeration reports if and only if a good loose file decides or the first and last good packed lines agree |
| `RefReaders.HeadAgreesWithUniquePacked` | src/refs.rs:581-612 | so it does whenever packed names are unique |
| `RefReaders.MalformedLooseFileSeparates` | src/rest.rs:309-318 | a loose file without an object id separates the listing from the other two readers |
| `RefReaders.RepeatedPackedNameSeparates` | src/refs.rs:494-511 | so do two packed lines for one name |
| `RefReaders.PeelGoesToNearestGood` | src/refs.rs:480-506 | a valid peel line marks the ref of the nearest line before it that passes both validators, from any state of the scan, and changes nothing else |
| `RefReaders.PeelAttachedIffGood` | src/refs.rs:480-506 | so it ends up at the entry it was written for if and only if that entry line passes both validators |
| `Tokens.TokenStore.MintToken` | src/tokens.rs:331-361 | inserts one row unless the hash is already stored |
| `Tokens.TokenStore.LookupToken` | src/tokens.rs:363-410 | resolves exactly an active readable row |
| `Tokens.TokenStore.RevokeToken` | src/tokens.rs:412-422 | marks an unrevoked row and tells whether there was one |
| `Tokens.TokenStore.RevokeAllForRepo` | src/tokens.rs:434-449 | marks exactly the active rows of the repository and returns their number |
| `Tokens.TokenStore.ListForRepo` | src/tokens.rs:470-535 | lists each active row of a repository and subject once, the newest first, with its shortened id, unsigned times and a malformed subject shown as none; fails exactly on an unreadable scope |
| `Tokens.TokenStore.PruneRows` | src/tokens.rs:239-253 | removes revoked rows and rows expired for longer than the grace time, which is read as a signed number |
| `Tokens.PruningIsUnobservable` | src/tokens.rs:239-253 | after every history, with clock readings in any order, lookups, listings, counts and bulk revocations answer as if nothing had ever been pruned, at every time not below the cutoff of a prune |
| `Tokens.ScheduleIsUnobservableIff` | src/tokens.rs:239-253 | a schedule of prunes is unobservable in that sense at a given time, for all histories with these prunes, if and only if none of its cutoffs lies above that time |
| `Tokens.PruningIsUnobservableIff` | src/tokens.rs:239-253 | with the clock in order, a grace time is safe for all histories if and only if it fits a signed 64-bit number |
| `Tokens.RevokeAnswerDiffersIff` | src/tokens.rs:239-253 | the answer of a single revocation differs if and only if the token is unrevoked and some prune of the history met it past its expiry by the grace time |
| `Tokens.RevokeAnswerCanDiffer` | src/tokens.rs:412-422 | and there is a history where it does |
| `Tokens.RevokedNeverResolves` | src/tokens.rs:412-449 | a token revoked alone or with its repository resolves at no later time, whatever follows |
| `Tokens.CountMatchesLookupsIff` | src/tokens.rs:451-468 | the active count is the number of stored hashes a lookup accepts if and only if no active row is corrupted |
| `Tokens.RevokeAllIsExact` | src/tokens.rs:434-449 | a bulk revocation turns off every token of that repository and of no other |
| `Tokens.RevokeAllCounts` | src/tokens.rs:434-449 | its result is by how much the active count drops, and a second call returns zero |
| `Tokens.UsableWhenMintedIff` | src/tokens.rs:345-346 | a token with a lifetime is usable when minted if and only if the lifetime is positive and the expiry fits a signed 64-bit number |
| `TokenTimes.MintedResolvesUntil` | src/tokens.rs:331-410 | a new token resolves to its repository and scope exactly until its lifetime is over, and without one forever |
| `TokenTimes.OthersKeepTheirRows` | src/tokens.rs:331-422 | a mint or a revocation leaves every other token alone, and a repeated hash keeps its token |
| `TokenTimes.RevokedAtOnce` | src/tokens.rs:412-422 | a revoked token resolves at no time, and its row stays with the time of the first revocation |
| `TokenTimes.PruneKeepsIff` | src/tokens.rs:239-253 | a prune keeps exactly the tokens neither revoked nor past their expiry by the grace time, unchanged |
| `TokenTimes.LookupOfAnyRow` | src/tokens.rs:363-410 | what a lookup makes of any stored row, corrupted ones included |
| `TokenTimes.MintedIsListedIff` | src/tokens.rs:451-535 | a new token is counted and listed, for all subjects or its own, exactly as long as it resolves |
| `TokenTimes.MintedIsShown` | src/tokens.rs:505-535 | how a new token is shown in a listing |
| `TokenTimes.ScopeColumn` | src/tokens.rs:46-61 | the two scope texts, and that nothing else is read as a scope |
| `AlternatesCache.Cache.Lookup` | src/alternates_cache.rs:61-86 | with one caller, from any agreeing cache, returns what direct resolution returns and leaves an agreeing cache |
| `AlternatesCache.ForkResolvesToItsSource` | src/alternates_cache.rs:100-124 | what a fork writes into its alternates file resolves back to its source |
| `AlternatesCache.ResolvesIff` | src/alternates_cache.rs:100-124 | an alternates file resolves to a repository if and only if its trimmed path is canonically that repository's object directory and the id is well-formed |
| `AlternatesCache.EveryAnswerWasTrue` | src/alternates_cache.rs:61-93 | over every interleaving of lookups, rewrites and removals every lookup answers with a source the file had while the lookup was under way |
| `AlternatesCache.QuietLookupIsExact` | src/alternates_cache.rs:61-86 | an uninterrupted lookup returns what direct resolution returns |
| `AlternatesCache.RemovalKeepsInvIff` | src/alternates_cache.rs:76-93 | removing the file keeps the invariant behind these results if and only if no source found for an absent file is cached or about to be |
| `AlternatesCache.StaleInsertAfterInvalidate` | src/alternates_cache.rs:76-93 | what breaks without that condition: the next lookup after the invalidation reports a source for a file that is gone |
| `AlternatesCache.StaleEntryBeforeInvalidate` | src/alternates_cache.rs:66-73 | the same for a source cached for an absent file: every lookup between removal and invalidation reports it |
| `AlternatesCache.AbsentHitIsReachable` | src/alternates_cache.rs:61-78 | the state the restriction excludes can be reached |
| `Migrator.Connection.Run` | src/db_migrate.rs:64-103 | the migration loop: what it executes and records, and when it reports success |
| `Migrator.CompletesIffDistinct` | src/db_migrate.rs:90-95 | it succeeds if and only if no pending version is listed twice |
| `Migrator.WorkAppends` | src/db_migrate.rs:64-103 | increasing pending versions are executed and recorded once each, in order, behind what was there |
| `Migrator.ResumeIff` | src/db_migrate.rs:64-103 | dying after any number of completed migrations and starting again ends where an uninterrupted run ends, if and only if the pending versions are strictly increasing |
| `Migrator.TornMigrationRunsTwice` | src/db_migrate.rs:81-95 | dying between a schema change and its version row makes the resumed run execute that one change twice in a row and end with the rows of an uninterrupted run |
| `Migrator.OtherNamespacesUntouched` | src/db_migrate.rs:64-103 | namespaces that share the table do not disturb each other |

## Left out

- `CollectorSafety.NoRefPointsIntoAHole`: making a repository with its alternates file is one step, and so is removing one repository directory; the names of the refs a scan will read are fixed when the scan of that member begins.
- `RefStore.FsRefStore.CasUpdate`: what `git update-ref` does with the zero id and with names that clash as file and directory is taken from its documentation; the value shown in a conflict is read in the same step; no caller passes the zero id as the new value.
- `Push.WalkImpliesComplete`: the closure walk is taken to visit everything its tips reach and the refs do not; git may stop earlier only at objects it knows from the refs.
- `Push.ReceivePack`: the validity check of the repository id inside the update loop is not modelled, because the dispatcher has already made it.
- `BranchHandlers.MergeBranches`: authorization, rate limiting, quota, events and the returned tree are not modelled; a failing git command other than the ref update is not a step here, while the interleaved model lets a request fail anywhere.
- `BranchHandlers.CreateCommit`: change lists, path and mode checks, blob decoding and the tree editor are not modelled; what git writes is a parameter, taken to have the parents it was given.
- `AuditTamper.OneEditStopsAtTheRow`: columns that cannot be decoded at all are one verdict, `Unreadable`.
- `TokenBucket.WindowBound`: token counts and clock readings are reals, so floating-point rounding is not modelled.
- `Eviction.EvictionUnobservableIff`: readings are in clock order and one eviction sweep uses one reading for all buckets.
- `RefFiles.EnumerateRefs`: names that are not text and files that cannot be read are absent from the tree, directories can always be read, and links are not modelled; unreadable packed-refs files, for which the listing fails, are not modelled either.
- `PackedRefs.SnapshotRefsToPacked`: the refs read from the source are a map, whose reads over time are steps of the collector model; symbolic and unreadable refs are not in it.
- `Sweep.Preview`: within one round the listing and the walks see one store and one set of refs; the state machine covers changes during them.
- `Tokens.TokenStore.ListForRepo`: rows of the same second come in any order, and the repository id asked for is well-formed, as its type ensures; the rows skipped for a malformed repository id therefore do not occur.
- `Tokens.PruningIsUnobservable`: minted tokens have hashes never stored before.
- `AlternatesCache.EveryAnswerWasTrue`: every write gets a time stamp of its own, the file is not removed while a source for an absent file is cached or about to be, and the directories that paths are canonicalised in do not come or go.
- `Migrator.ResumeIff`: schema changes are entries in a log; that repeating one is harmless is a matter of its SQL and not modelled, and a change that fails is the same as dying before it.
- The periodic sweep over all repositories, HTTP routing, authentication, webhooks, metrics, quotas and pagination: plumbing without a deep invariant.
- The parsers of push and fetch request bodies and the pack formats: easy members beside the framing, or outside the modelled files.
- SHA-256, token secrecy and database locking: the hash is a parameter and every transaction is one step.
