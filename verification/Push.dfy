/** A push: unpack, connectivity gate, one compare-and-swap per ref, one report line per ref. */
module Push {
  import opened Base
  import opened Ids
  import opened Reachability
  import opened RefStore

  /** One command of a push; `before` and `after` are the object ids it names. */
  datatype RefUpdate = RefUpdate(before: string, after: string, name: string) {
    predicate IsCreate() { before == ZERO }

    predicate IsDelete() { after == ZERO }
  }

  datatype Reason =
    | UnpackerError
    | MissingObjects
    | NonFastForward
    | InvalidRefName
    | InvalidOldOid
    | InvalidNewOid
    | StoreFailed(message: string)

  datatype Line =
    | UnpackOk
    | UnpackFailed(message: string)
    | Accepted(name: string)
    | Rejected(name: string, reason: Reason)

  // ── one update ───────────────────────────────────────────────────────

  function Malformed(u: RefUpdate): Option<Reason> {
    if !ValidRefName(u.name) then Some(InvalidRefName)
    else if !ValidOid(u.before) then Some(InvalidOldOid)
    else if !ValidOid(u.after) then Some(InvalidNewOid)
    else None
  }

  /** A delete names the old value even when that is the zero id; a create names none. `n` counts the updates. */
  function Request(repo: RepoId, u: RefUpdate, n: nat): Cas {
    if u.IsDelete() then Delete((repo, u.name), Some(u.before), n)
    else Update((repo, u.name), if u.IsCreate() then None else Some(u.before), u.after, n)
  }

  predicate Lands(b: Backend, n: nat, refs: Refs, repo: RepoId, u: RefUpdate) {
    Malformed(u).None? && Applies(b, refs, Request(repo, u, n))
  }

  /** Why an update that does not land is rejected; every conflict, whatever its cause, reads the same. */
  function ReasonFor(b: Backend, n: nat, refs: Refs, repo: RepoId, u: RefUpdate): Reason {
    if Malformed(u).Some? then Malformed(u).value
    else match b.git(refs, Request(repo, u, n))
      case Fails(message) => StoreFailed(message)
      case _ => NonFastForward
  }

  function LineFor(b: Backend, n: nat, refs: Refs, repo: RepoId, u: RefUpdate): Line {
    if Lands(b, n, refs, repo, u) then Accepted(u.name) else Rejected(u.name, ReasonFor(b, n, refs, repo, u))
  }

  function RefsAfter(b: Backend, n: nat, refs: Refs, repo: RepoId, u: RefUpdate): Refs {
    if Malformed(u).Some? then refs else Apply(b, refs, Request(repo, u, n))
  }

  method ApplyRefUpdate(store: FsRefStore, repo: RepoId, u: RefUpdate, n: nat) returns (r: Result<(), Reason>)
    modifies store
    ensures store.refs == RefsAfter(store.Kind(), n, old(store.refs), repo, u)
    ensures r.Ok? <==> Lands(store.Kind(), n, old(store.refs), repo, u)
    ensures LineFor(store.Kind(), n, old(store.refs), repo, u) == if r.Ok? then Accepted(u.name) else Rejected(u.name, r.error)
  {
    if !ValidRefName(u.name) {
      return Err(InvalidRefName);
    }
    if !ValidOid(u.before) {
      return Err(InvalidOldOid);
    }
    if !ValidOid(u.after) {
      return Err(InvalidNewOid);
    }
    var outcome;
    if u.IsDelete() {
      outcome := store.CasDelete(repo, u.name, Some(u.before), n);
    } else {
      outcome := store.CasUpdate(repo, u.name, if u.IsCreate() then None else Some(u.before), u.after, n);
    }
    match outcome {
      case Updated => return Ok(());
      case Conflict(_) => return Err(NonFastForward);
      case Failed(message) => return Err(StoreFailed(message));
    }
  }

  // ── the whole push ───────────────────────────────────────────────────

  function RefsAfterAll(b: Backend, n: nat, refs: Refs, repo: RepoId, us: seq<RefUpdate>): Refs
    decreases |us|
  {
    if us == [] then refs else RefsAfterAll(b, n + 1, RefsAfter(b, n, refs, repo, us[0]), repo, us[1..])
  }

  function Tips(us: seq<RefUpdate>): seq<Oid> {
    if us == [] then [] else (if us[0].IsDelete() then [] else [us[0].after]) + Tips(us[1..])
  }

  predicate AllRejected(us: seq<RefUpdate>, reason: Reason, lines: seq<Line>) {
    |lines| == |us| && forall i :: 0 <= i < |us| ==> lines[i] == Rejected(us[i].name, reason)
  }

  /** Line `i` reports what the compare-and-swap of update `i` did at its turn. */
  predicate ReportsEach(b: Backend, n: nat, refs: Refs, repo: RepoId, us: seq<RefUpdate>, lines: seq<Line>) {
    |lines| == |us| && forall i :: 0 <= i < |us| ==> lines[i] == LineFor(b, n + i, RefsAfterAll(b, n, refs, repo, us[..i]), repo, us[i])
  }

  lemma {:induction false} RefsAfterOneMore(b: Backend, n: nat, refs: Refs, repo: RepoId, us: seq<RefUpdate>, u: RefUpdate)
    ensures RefsAfterAll(b, n, refs, repo, us + [u]) == RefsAfter(b, n + |us|, RefsAfterAll(b, n, refs, repo, us), repo, u)
    decreases |us|
  {
    if us == [] {
      assert ([] + [u])[1..] == [];
    } else {
      assert (us + [u])[1..] == us[1..] + [u];
      RefsAfterOneMore(b, n + 1, RefsAfter(b, n, refs, repo, us[0]), repo, us[1..], u);
    }
  }

  lemma {:induction false} TipsOneMore(us: seq<RefUpdate>, u: RefUpdate)
    ensures Tips(us + [u]) == Tips(us) + (if u.IsDelete() then [] else [u.after])
    decreases |us|
  {
    if us == [] {
      assert ([] + [u])[1..] == [];
    } else {
      assert (us + [u])[1..] == us[1..] + [u];
      TipsOneMore(us[1..], u);
    }
  }

  method NewTips(us: seq<RefUpdate>) returns (tips: seq<Oid>)
    ensures tips == Tips(us)
  {
    tips := [];
    for i := 0 to |us|
      invariant tips == Tips(us[..i])
    {
      TipsOneMore(us[..i], us[i]);
      assert us[..i + 1] == us[..i] + [us[i]];
      if !us[i].IsDelete() {
        tips := tips + [us[i].after];
      }
    }
    assert us[..|us|] == us;
  }

  method RejectAll(us: seq<RefUpdate>, reason: Reason) returns (lines: seq<Line>)
    ensures AllRejected(us, reason, lines)
  {
    lines := [];
    for i := 0 to |us|
      invariant AllRejected(us[..i], reason, lines)
    {
      lines := lines + [Rejected(us[i].name, reason)];
    }
    assert us[..|us|] == us;
  }

  lemma NothingPushed(b: Backend, n: nat, refs: Refs, repo: RepoId, us: seq<RefUpdate>)
    ensures RefsAfterAll(b, n, refs, repo, us[..0]) == refs
  {
  }

  method SwapEach(store: FsRefStore, repo: RepoId, us: seq<RefUpdate>, n: nat) returns (lines: seq<Line>)
    modifies store
    ensures store.refs == RefsAfterAll(store.Kind(), n, old(store.refs), repo, us)
    ensures ReportsEach(store.Kind(), n, old(store.refs), repo, us, lines)
  {
    hide RefsAfter, Lands, LineFor, RefsAfterAll;
    lines := [];
    ghost var start := store.refs;
    assert RefsAfterAll(store.Kind(), n, start, repo, us[..0]) == start by {
      NothingPushed(store.Kind(), n, start, repo, us);
    }
    for i := 0 to |us|
      invariant store.refs == RefsAfterAll(store.Kind(), n, start, repo, us[..i])
      invariant |lines| == i
      invariant forall k :: 0 <= k < i ==> lines[k] == LineFor(store.Kind(), n + k, RefsAfterAll(store.Kind(), n, start, repo, us[..k]), repo, us[k])
    {
      RefsAfterOneMore(store.Kind(), n, start, repo, us[..i], us[i]);
      assert us[..i + 1] == us[..i] + [us[i]];
      var r := ApplyRefUpdate(store, repo, us[i], n + i);
      match r {
        case Ok(_) => lines := lines + [Accepted(us[i].name)];
        case Err(reason) => lines := lines + [Rejected(us[i].name, reason)];
      }
    }
    assert us[..|us|] == us;
  }

  /** `unpack` is the outcome of unpacking the pack, `connected` the answer of the closure walk. */
  method ReceivePack(store: FsRefStore, repo: RepoId, us: seq<RefUpdate>, unpack: Result<(), string>,
                     connected: seq<Oid> -> bool, n: nat)
    returns (report: seq<Line>)
    modifies store
    ensures |report| == |us| + 1
    ensures unpack.Err? ==> report[0] == UnpackFailed(unpack.error) && AllRejected(us, UnpackerError, report[1..])
                            && store.refs == old(store.refs)
    ensures unpack.Ok? ==> report[0] == UnpackOk
    ensures unpack.Ok? && Tips(us) != [] && !connected(Tips(us)) ==>
              AllRejected(us, MissingObjects, report[1..]) && store.refs == old(store.refs)
    ensures unpack.Ok? && (Tips(us) == [] || connected(Tips(us))) ==>
              ReportsEach(store.Kind(), n, old(store.refs), repo, us, report[1..])
              && store.refs == RefsAfterAll(store.Kind(), n, old(store.refs), repo, us)
  {
    var lines;
    if unpack.Err? {
      lines := RejectAll(us, UnpackerError);
      return [UnpackFailed(unpack.error)] + lines;
    }
    var tips := NewTips(us);
    if tips != [] && !connected(tips) {
      lines := RejectAll(us, MissingObjects);
    } else {
      lines := SwapEach(store, repo, us, n);
    }
    return [UnpackOk] + lines;
  }

  // ── what a push cannot do ────────────────────────────────────────────

  lemma {:induction false} UnnamedRefsUntouched(b: Backend, n: nat, refs: Refs, repo: RepoId, us: seq<RefUpdate>, key: Key)
    requires forall i :: 0 <= i < |us| ==> key != (repo, us[i].name)
    ensures Current(RefsAfterAll(b, n, refs, repo, us), key) == Current(refs, key)
    decreases |us|
  {
    if us != [] {
      ApplyFrame(b, refs, Request(repo, us[0], n), key);
      UnnamedRefsUntouched(b, n + 1, RefsAfter(b, n, refs, repo, us[0]), repo, us[1..], key);
    }
  }

  ghost predicate DistinctNames(us: seq<RefUpdate>) {
    forall i, j :: 0 <= i < j < |us| ==> us[i].name != us[j].name
  }

  /** What one update comes to is the same against `mid` as against `refs`: exactly when it cannot tell them apart. */
  ghost predicate SameFate(b: Backend, n: nat, refs: Refs, mid: Refs, repo: RepoId, u: RefUpdate) {
    var request := Request(repo, u, n);
    || Malformed(u).Some?
    || b.git(mid, request) == b.git(refs, request)
    || (!Matches(b, request, Current(refs, request.key)) && !b.git(mid, request).Fails? && !b.git(refs, request).Fails?)
  }

  /**
   With distinct names every update has the last word on its own ref. It is judged as if it stood alone,
   against the refs as they were before the push, if and only if it is malformed, or git answers it the
   same at its turn, or it would conflict anyway and git fails neither time.
   */
  lemma DistinctUpdatesAreIndependent(b: Backend, n: nat, refs: Refs, repo: RepoId, us: seq<RefUpdate>, i: nat)
    requires DistinctNames(us) && i < |us|
    ensures var mid := RefsAfterAll(b, n, refs, repo, us[..i]);
            var u := us[i];
            && (LineFor(b, n + i, mid, repo, u) == LineFor(b, n + i, refs, repo, u) <==> SameFate(b, n + i, refs, mid, repo, u))
            && Current(RefsAfterAll(b, n, refs, repo, us), (repo, u.name)) ==
               if !Lands(b, n + i, mid, repo, u) then Current(refs, (repo, u.name))
               else if u.IsDelete() then None
               else Some(u.after)
  {
    hide RefsAfterAll, RefsAfter, Lands, LineFor, Current, ValidRefName, ValidOid, SameFate;
    var u := us[i];
    var key := (repo, u.name);
    var mid := RefsAfterAll(b, n, refs, repo, us[..i]);
    UnnamedRefsUntouched(b, n, refs, repo, us[..i], key);
    SameCurrentSameFate(b, n + i, refs, mid, repo, u);
    assert us == us[..i] + ([u] + us[i + 1..]);
    RefsAfterJoin(b, n, refs, repo, us[..i], [u] + us[i + 1..]);
    FirstThenRest(b, n + i, mid, repo, u, us[i + 1..]);
    UnnamedRefsUntouched(b, n + i + 1, RefsAfter(b, n + i, mid, repo, u), repo, us[i + 1..], key);
  }

  lemma FirstThenRest(b: Backend, n: nat, refs: Refs, repo: RepoId, u: RefUpdate, rest: seq<RefUpdate>)
    ensures RefsAfterAll(b, n, refs, repo, [u] + rest) == RefsAfterAll(b, n + 1, RefsAfter(b, n, refs, repo, u), repo, rest)
  {
    assert ([u] + rest)[1..] == rest;
  }

  /** The fate of an update depends on the current value of its own ref and on git's answer alone. */
  lemma SameCurrentSameFate(b: Backend, n: nat, refs: Refs, mid: Refs, repo: RepoId, u: RefUpdate)
    requires Current(mid, (repo, u.name)) == Current(refs, (repo, u.name))
    ensures LineFor(b, n, mid, repo, u) == LineFor(b, n, refs, repo, u) <==> SameFate(b, n, refs, mid, repo, u)
    ensures Current(RefsAfter(b, n, mid, repo, u), (repo, u.name)) ==
            if !Lands(b, n, mid, repo, u) then Current(refs, (repo, u.name))
            else if u.IsDelete() then None
            else Some(u.after)
  {
    ApplyFrame(b, mid, Request(repo, u, n), (repo, u.name));
  }

  lemma {:induction false} RefsAfterJoin(b: Backend, n: nat, refs: Refs, repo: RepoId, first: seq<RefUpdate>, second: seq<RefUpdate>)
    ensures RefsAfterAll(b, n, refs, repo, first + second) == RefsAfterAll(b, n + |first|, RefsAfterAll(b, n, refs, repo, first), repo, second)
    decreases |first|
  {
    if first == [] {
      assert first + second == second;
    } else {
      assert (first + second)[1..] == first[1..] + second;
      RefsAfterJoin(b, n + 1, RefsAfter(b, n, refs, repo, first[0]), repo, first[1..], second);
    }
  }

  /** Over git the order can matter even for distinct names: a branch frees the path of another. */
  lemma FreedPathLetsAnUpdateLand(b: Backend, n: nat, refs: Refs, repo: RepoId, drop: RefUpdate, make: RefUpdate)
    requires RefusesNested(b) && drop.name + "/" <= make.name && (repo, drop.name) in refs && !make.IsDelete()
    requires drop.IsDelete() && Lands(b, n, refs, repo, drop)
    requires var mid := refs - {(repo, drop.name)};
             Malformed(make).None? && Matches(b, Request(repo, make, n + 1), Current(mid, (repo, make.name)))
             && b.git(mid, Request(repo, make, n + 1)) == Obeys
    ensures Lands(b, n + 1, RefsAfter(b, n, refs, repo, drop), repo, make) && !Lands(b, n + 1, refs, repo, make)
  {
    assert Nested(refs, (repo, make.name));
  }

  ghost predicate NoZero(refs: Refs) {
    forall k :: k in refs ==> refs[k] != ZERO
  }

  /**
   No ref ever holds the zero id. A well-formed command that both creates and deletes therefore never
   matches a store that reads the zero id as a value; where it stands for none, as in git, it deletes
   whatever the ref holds.
   */
  lemma {:induction false} ZeroIsNeverStored(b: Backend, n: nat, refs: Refs, repo: RepoId, us: seq<RefUpdate>)
    requires NoZero(refs)
    ensures NoZero(RefsAfterAll(b, n, refs, repo, us))
    ensures forall i :: 0 <= i < |us| && us[i].IsCreate() && us[i].IsDelete() ==>
              var mid := RefsAfterAll(b, n, refs, repo, us[..i]);
              && (Lands(b, n + i, mid, repo, us[i]) <==>
                    b.zeroIsSpecial && Malformed(us[i]).None? && b.git(mid, Request(repo, us[i], n + i)) == Obeys)
              && (Lands(b, n + i, mid, repo, us[i]) ==> RefsAfter(b, n + i, mid, repo, us[i]) == mid - {(repo, us[i].name)})
  {
    forall i | 0 <= i <= |us| ensures NoZero(RefsAfterAll(b, n, refs, repo, us[..i])) {
      NoZeroAfter(b, n, refs, repo, us[..i]);
    }
    assert us[..|us|] == us;
  }

  lemma {:induction false} NoZeroAfter(b: Backend, n: nat, refs: Refs, repo: RepoId, us: seq<RefUpdate>)
    requires NoZero(refs)
    ensures NoZero(RefsAfterAll(b, n, refs, repo, us))
    decreases |us|
  {
    if us != [] {
      NoZeroAfter(b, n + 1, RefsAfter(b, n, refs, repo, us[0]), repo, us[1..]);
    }
  }

  /** A push is not atomic across refs: one update can land while another conflicts. */
  lemma PushCanLandInPart(b: Backend, n: nat, repo: RepoId, x: RefName, y: RefName, v: Oid, w: Oid)
    requires Obedient(b) && ValidRefName(x) && ValidRefName(y) && x != y
    requires ValidOid(v) && ValidOid(w) && v != w && v != ZERO && w != ZERO
    ensures var refs: Refs := map[(repo, y) := v];
            var us := [RefUpdate(ZERO, w, x), RefUpdate(w, v, y)];
            && RefsAfterAll(b, n, refs, repo, us) == refs[(repo, x) := w]
            && ReportsEach(b, n, refs, repo, us, [Accepted(x), Rejected(y, NonFastForward)])
  {
    var refs: Refs := map[(repo, y) := v];
    var u0, u1 := RefUpdate(ZERO, w, x), RefUpdate(w, v, y);
    var us := [u0, u1];
    var refs' := refs[(repo, x) := w];
    ZeroIsAnOid();
    assert RefsAfter(b, n, refs, repo, u0) == refs' && LineFor(b, n, refs, repo, u0) == Accepted(x);
    assert RefsAfter(b, n + 1, refs', repo, u1) == refs' && LineFor(b, n + 1, refs', repo, u1) == Rejected(y, NonFastForward);
    assert us[1..] == [u1] && [u1][1..] == [] && us[..0] == [] && us[..1] == [u0] && [u0][1..] == [];
    assert RefsAfterAll(b, n, refs, repo, [u0]) == refs';
    assert RefsAfterAll(b, n + 1, refs', repo, [u1]) == refs';
  }

  lemma ZeroIsAnOid()
    ensures ValidOid(ZERO)
  {
    assert |ZERO| == 40;
    assert forall i :: 0 <= i < 40 ==> ZERO[i] == '0';
  }

  // ── never a ref into a hole ──────────────────────────────────────────

  ghost predicate Complete(links: Oid -> set<Oid>, have: set<Oid>, tip: Oid) {
    forall o :: Reaches(links, tip, o) ==> o in have
  }

  /** Every ref of the repository has its whole closure within reach. */
  ghost predicate Healthy(links: Oid -> set<Oid>, have: set<Oid>, refs: Refs, repo: RepoId) {
    forall name :: (repo, name) in refs ==> Complete(links, have, refs[(repo, name)])
  }

  /** The closure walk excludes whatever the existing refs reach (`--not --all`) and visits the rest. */
  ghost predicate WalkSucceeds(links: Oid -> set<Oid>, have: set<Oid>, refs: Refs, repo: RepoId, tips: seq<Oid>) {
    forall i, o :: 0 <= i < |tips| && Reaches(links, tips[i], o) ==> o in have || KnownFromRefs(links, refs, repo, o)
  }

  ghost predicate KnownFromRefs(links: Oid -> set<Oid>, refs: Refs, repo: RepoId, o: Oid) {
    exists name :: (repo, name) in refs && Reaches(links, refs[(repo, name)], o)
  }

  /** Leaving out what the refs already reach costs nothing while the refs are healthy. */
  lemma WalkImpliesComplete(links: Oid -> set<Oid>, have: set<Oid>, refs: Refs, repo: RepoId, tips: seq<Oid>, i: nat)
    requires Healthy(links, have, refs, repo) && WalkSucceeds(links, have, refs, repo, tips) && i < |tips|
    ensures Complete(links, have, tips[i])
  {
    forall o | Reaches(links, tips[i], o) ensures o in have {
      if KnownFromRefs(links, refs, repo, o) {
        var name :| (repo, name) in refs && Reaches(links, refs[(repo, name)], o);
        assert Complete(links, have, refs[(repo, name)]);
      }
    }
  }

  lemma {:induction false} CompleteTipsKeepHealth(links: Oid -> set<Oid>, have: set<Oid>, b: Backend, n: nat, refs: Refs, repo: RepoId,
                                                  us: seq<RefUpdate>)
    requires Healthy(links, have, refs, repo)
    requires forall tip :: tip in Tips(us) ==> Complete(links, have, tip)
    ensures Healthy(links, have, RefsAfterAll(b, n, refs, repo, us), repo)
    decreases |us|
  {
    if us != [] {
      assert !us[0].IsDelete() ==> us[0].after in Tips(us);
      CompleteTipsKeepHealth(links, have, b, n + 1, RefsAfter(b, n, refs, repo, us[0]), repo, us[1..]);
    }
  }

  /**
   The push invariant. With a truthful walk no push, however it is answered, leaves a ref of the
   repository without its whole closure.
   */
  method ReceivePackKeepsHealth(store: FsRefStore, repo: RepoId, us: seq<RefUpdate>, unpack: Result<(), string>,
                                connected: seq<Oid> -> bool, n: nat, ghost links: Oid -> set<Oid>, ghost have: set<Oid>)
    returns (report: seq<Line>)
    requires Healthy(links, have, store.refs, repo)
    requires forall tips :: connected(tips) ==> WalkSucceeds(links, have, store.refs, repo, tips)
    modifies store
    ensures Healthy(links, have, store.refs, repo)
  {
    report := ReceivePack(store, repo, us, unpack, connected, n);
    if unpack.Ok? && (Tips(us) == [] || connected(Tips(us))) {
      forall tip | tip in Tips(us) ensures Complete(links, have, tip) {
        var i :| 0 <= i < |Tips(us)| && Tips(us)[i] == tip;
        WalkImpliesComplete(links, have, old(store.refs), repo, Tips(us), i);
      }
      CompleteTipsKeepHealth(links, have, store.Kind(), n, old(store.refs), repo, us);
    }
  }

  /** The gate is exact: without it the same push would break the repository. */
  lemma GateIsNecessary(links: Oid -> set<Oid>, have: set<Oid>, b: Backend, n: nat, refs: Refs, repo: RepoId, us: seq<RefUpdate>,
                        i: nat)
    requires DistinctNames(us) && i < |us| && Lands(b, n + i, RefsAfterAll(b, n, refs, repo, us[..i]), repo, us[i]) && !us[i].IsDelete()
    requires !Complete(links, have, us[i].after)
    ensures !Healthy(links, have, RefsAfterAll(b, n, refs, repo, us), repo)
  {
    DistinctUpdatesAreIndependent(b, n, refs, repo, us, i);
    assert (repo, us[i].name) in RefsAfterAll(b, n, refs, repo, us);
  }

  // ── what a single update comes to ────────────────────────────────────

  /**
   A well-formed update that git carries out, in terms of the three texts of its command. With an old id
   it lands if and only if the ref holds that id; without one, a creation lands if and only if there is no
   ref, and a deletion always does. The ref then holds the new id, or is gone.
   */
  lemma UpdateLandsIff(b: Backend, n: nat, refs: Refs, repo: RepoId, u: RefUpdate)
    requires Malformed(u).None? && b.git(refs, Request(repo, u, n)) == Obeys && b.zeroIsSpecial
    ensures var key := (repo, u.name);
            var deletes, named := u.after == Zeros(), u.before != Zeros();
            && (Lands(b, n, refs, repo, u) <==>
                  if named then key in refs && refs[key] == u.before else deletes || key !in refs)
            && RefsAfter(b, n, refs, repo, u) ==
               (if !Lands(b, n, refs, repo, u) then refs else if deletes then refs - {key} else refs[key := u.after])
            && LineFor(b, n, refs, repo, u) == if Lands(b, n, refs, repo, u) then Accepted(u.name) else Rejected(u.name, NonFastForward)
  {
    ZeroIsFortyZeros();
  }

  /** A malformed update is rejected with the first thing wrong with it, and changes nothing. */
  lemma MalformedIsRejected(b: Backend, n: nat, refs: Refs, repo: RepoId, u: RefUpdate)
    requires !ValidRefName(u.name) || !ValidOid(u.before) || !ValidOid(u.after)
    ensures RefsAfter(b, n, refs, repo, u) == refs
    ensures LineFor(b, n, refs, repo, u) ==
            Rejected(u.name, if !ValidRefName(u.name) then InvalidRefName else if !ValidOid(u.before) then InvalidOldOid else InvalidNewOid)
  {
  }

  /** The tips the gate looks at are the new ids of the updates that are no deletions, so a push of deletions has none. */
  lemma {:induction false} TipsIff(us: seq<RefUpdate>, tip: Oid)
    ensures tip in Tips(us) <==> tip != Zeros() && exists i :: 0 <= i < |us| && us[i].after == tip
    decreases |us|
  {
    ZeroIsFortyZeros();
    if us != [] {
      TipsIff(us[1..], tip);
      assert forall i :: 0 <= i < |us[1..]| ==> us[1..][i] == us[i + 1];
      if exists i :: 0 <= i < |us| && us[i].after == tip {
        var i :| 0 <= i < |us| && us[i].after == tip;
        assert i > 0 ==> us[1..][i - 1].after == tip;
      }
    }
  }
}
