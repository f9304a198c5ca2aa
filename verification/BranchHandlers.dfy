/**
 The commit and merge endpoints as they run against the deployed ref store when no other request
 interferes. Git's answers are parameters: the ancestor test, the three-way tree merge, the object
 writers and, inside the store, what becomes of a ref update.
 */
module BranchHandlers {
  import opened Base
  import opened BranchWriters
  import opened Ids
  import opened Reachability
  import opened RefStore

  datatype Git = Git(
    isAncestor: (Oid, Oid) -> bool,
    mergeTree: (Oid, Oid) -> Option<Oid>,
    commitTree: (Oid, Oid, Oid) -> Oid
  )

  /** The ancestor test answers truthfully. */
  ghost predicate Faithful(git: Git, parents: Parents) {
    forall a, b :: git.isAncestor(a, b) <==> Ancestor(parents, a, b)
  }

  function MergeCommit(git: Git, t: Oid, s: Oid): Option<Oid> {
    var tree := git.mergeTree(t, s);
    if tree.Some? then Some(git.commitTree(tree.value, t, s)) else None
  }

  /** If merging `s` into `t` yields a commit, it has these two parents. */
  ghost predicate CommitsBoth(git: Git, parents: Parents, t: Oid, s: Oid) {
    MergeCommit(git, t, s).Some? ==> parents(MergeCommit(git, t, s).value) == {t, s}
  }

  datatype MergeResult = MergeResult(commit: Oid, fastForward: bool, source: Oid)

  datatype Error =
    | InvalidBranchName
    | SameBranch
    | NoSourceBranch
    | InvalidSha
    | InvalidRefName
    | NotAFastForward
    | NoTargetSha
    | MergeConflict
    | ParentNotFound
    | RefConflict(expected: Option<Oid>, current: Option<Oid>)
    | StoreError(message: string)

  /** Moving a branch from `expected` to `value` is carried out. */
  predicate Moves(b: Backend, refs: Refs, repo: RepoId, branch: string, expected: Option<Oid>, value: Oid, attempt: nat) {
    ValidRefName(BranchRef(branch)) && Applies(b, refs, Update((repo, BranchRef(branch)), expected, value, attempt))
  }

  /** Why moving a branch was not carried out. */
  function WhyNot(b: Backend, refs: Refs, repo: RepoId, branch: string, expected: Option<Oid>, value: Oid, attempt: nat): Error {
    var key := (repo, BranchRef(branch));
    if !ValidRefName(BranchRef(branch)) then InvalidRefName
    else if !ValidOid(value) then InvalidSha
    else match b.git(refs, Update(key, expected, value, attempt))
      case Fails(message) => StoreError(message)
      case _ => RefConflict(expected, Current(refs, key))
  }

  /** What a merge request comes to, by the plan for the two tips. */
  ghost predicate FollowsPlan(b: Backend, refs: Refs, repo: RepoId, target: string, strategy: Strategy, git: Git, attempt: nat,
                              s: Oid, t: Option<Oid>, r: Result<MergeResult, Error>) {
    match PlanMerge(strategy, t, t.Some? && git.isAncestor(s, t.value), t.Some? && git.isAncestor(t.value, s))
    case AlreadyMerged => r == Ok(MergeResult(t.value, false, s))
    case NotFastForward => r == Err(NotAFastForward)
    case MissingTarget => r == Err(NoTargetSha)
    case FastForward =>
      if Moves(b, refs, repo, target, t, s, attempt) then r == Ok(MergeResult(s, true, s))
      else r == Err(WhyNot(b, refs, repo, target, t, s, attempt))
    case ThreeWay =>
      var commit := MergeCommit(git, t.value, s);
      if commit.None? then r == Err(MergeConflict)
      else if ValidOid(commit.value) && Moves(b, refs, repo, target, t, commit.value, attempt)
      then r == Ok(MergeResult(commit.value, false, s))
      else r == Err(WhyNot(b, refs, repo, target, t, commit.value, attempt))
  }

  method MergeBranches(store: FsRefStore, repo: RepoId, source: string, target: string, strategy: Strategy, git: Git,
                       attempt: nat, ghost parents: Parents)
    returns (r: Result<MergeResult, Error>)
    requires Faithful(git, parents)
    requires var s := Current(store.refs, (repo, BranchRef(source)));
             var t := Current(store.refs, (repo, BranchRef(target)));
             s.Some? && t.Some? ==> CommitsBoth(git, parents, t.value, s.value)
    modifies store
    // Two well-formed tips of different branches: the plan decides, and one swap carries it out.
    ensures var s := Current(old(store.refs), (repo, BranchRef(source)));
            var t := Current(old(store.refs), (repo, BranchRef(target)));
            if ValidBranchName(source) && ValidBranchName(target) && source != target
               && s.Some? && ValidOid(s.value) && (t.Some? ==> ValidOid(t.value))
            then FollowsPlan(store.Kind(), old(store.refs), repo, target, strategy, git, attempt, s.value, t, r)
            else r == Err(if !ValidBranchName(source) || !ValidBranchName(target) then InvalidBranchName
                          else if source == target then SameBranch
                          else if s.None? then NoSourceBranch
                          else InvalidSha)
    // A failure leaves every ref alone; a success moves at most the target, to a commit holding both branches.
    ensures r.Err? ==> store.refs == old(store.refs)
    ensures r.Ok? ==>
              var s := Current(old(store.refs), (repo, BranchRef(source)));
              var t := Current(old(store.refs), (repo, BranchRef(target)));
              && s == Some(r.value.source)
              && store.refs == old(store.refs)[(repo, BranchRef(target)) := r.value.commit]
              && MergeOf(parents, s.value, t, r.value.commit)
              && Ancestor(parents, s.value, r.value.commit)
              && (t.Some? ==> Ancestor(parents, t.value, r.value.commit))
              && (r.value.fastForward ==> r.value.commit == s.value && strategy != Merge)
    // Without interference a conflict is git's own refusal: expected and current are the same value.
    ensures r.Err? && r.error.RefConflict? ==>
              var t := Current(old(store.refs), (repo, BranchRef(target)));
              && r.error == RefConflict(t, t)
              && (t == Some(ZERO) || exists c :: store.git(old(store.refs), Update((repo, BranchRef(target)), t, c, attempt)) == Refuses)
    // The path meant to be unreachable is taken exactly for a forced merge onto an absent branch.
    ensures r == Err(NoTargetSha) <==>
              && ValidBranchName(source) && ValidBranchName(target) && source != target
              && Current(old(store.refs), (repo, BranchRef(source))).Some?
              && ValidOid(Current(old(store.refs), (repo, BranchRef(source))).value)
              && Current(old(store.refs), (repo, BranchRef(target))).None?
              && strategy == Merge
    // Only a forced merge or a real divergence can create a commit.
    ensures r.Ok? && Some(r.value.commit) != Current(old(store.refs), (repo, BranchRef(target))) && r.value.commit != r.value.source
            ==> strategy != FfOnly
  {
    hide ValidBranchName, ValidRefName, ValidOid, Reaches;
    if !ValidBranchName(source) || !ValidBranchName(target) {
      return Err(InvalidBranchName);
    }
    if source == target {
      return Err(SameBranch);
    }
    var resolved := store.Read(repo, BranchRef(source));
    if resolved.None? {
      return Err(NoSourceBranch);
    }
    var s := resolved.value;
    if !ValidOid(s) {
      return Err(InvalidSha);
    }
    var t := store.Read(repo, BranchRef(target));
    if t.Some? && !ValidOid(t.value) {
      return Err(InvalidSha);
    }
    ReachesSelf(parents, s);
    if t.Some? {
      ReachesSelf(parents, t.value);
      if git.isAncestor(s, t.value) {
        return Ok(MergeResult(t.value, false, s));
      }
    }
    var ffAvailable := if t.None? then true else git.isAncestor(t.value, s);
    if ffAvailable && strategy != Merge {
      if !ValidRefName(BranchRef(target)) {
        return Err(InvalidRefName);
      }
      var outcome := store.CasUpdate(repo, BranchRef(target), t, s, attempt);
      match outcome {
        case Updated => return Ok(MergeResult(s, true, s));
        case Conflict(current) => return Err(RefConflict(t, current));
        case Failed(message) => return Err(StoreError(message));
      }
    }
    if strategy == FfOnly {
      return Err(NotAFastForward);
    }
    if t.None? {
      return Err(NoTargetSha);
    }
    var tree := git.mergeTree(t.value, s);
    if tree.None? {
      return Err(MergeConflict);
    }
    var commit := git.commitTree(tree.value, t.value, s);
    ParentsAreAncestors(parents, commit);
    if !ValidRefName(BranchRef(target)) {
      return Err(InvalidRefName);
    }
    if !ValidOid(commit) {
      return Err(InvalidSha);
    }
    var outcome := store.CasUpdate(repo, BranchRef(target), t, commit, attempt);
    match outcome {
      case Updated => return Ok(MergeResult(commit, false, s));
      case Conflict(current) => return Err(RefConflict(t, current));
      case Failed(message) => return Err(StoreError(message));
    }
  }

  /** `write` builds the commit object on top of the named parent. */
  method CreateCommit(store: FsRefStore, repo: RepoId, branch: string, parent: Option<Oid>, isPresent: Oid -> bool,
                      write: Option<Oid> -> Oid, attempt: nat, ghost parents: Parents)
    returns (r: Result<Oid, Error>)
    requires parents(write(parent)) == Members(parent)
    modifies store
    ensures r.Err? ==> store.refs == old(store.refs)
    ensures var key := (repo, BranchRef(branch));
            r.Ok? <==> ValidBranchName(branch) && !OptionLike(branch) && (parent.Some? ==> isPresent(parent.value))
                       && ValidOid(write(parent)) && Current(old(store.refs), key) == Named(store.Kind(), parent)
                       && store.git(old(store.refs), Update(key, parent, write(parent), attempt)) == Obeys
    // What is wrong with a request that fails; a branch that looks like an option is noticed last.
    ensures r == Err(InvalidBranchName) <==> !ValidBranchName(branch)
    ensures r == Err(ParentNotFound) <==> ValidBranchName(branch) && parent.Some? && !isPresent(parent.value)
    ensures r == Err(InvalidRefName) <==> ValidBranchName(branch) && (parent.Some? ==> isPresent(parent.value)) && OptionLike(branch)
    ensures r.Err? && !r.error.InvalidBranchName? && !r.error.ParentNotFound? ==>
              r.error == WhyNot(store.Kind(), old(store.refs), repo, branch, parent, write(parent), attempt)
    // The branch now ends in a commit whose only parent is the one the caller named.
    ensures r.Ok? ==> r.value == write(parent) && store.refs == old(store.refs)[(repo, BranchRef(branch)) := r.value]
                      && parents(r.value) == Members(parent)
    // A conflict is a moved branch or git's own refusal, and shows the tip as it is.
    ensures r.Err? && r.error.RefConflict? ==>
              var key := (repo, BranchRef(branch));
              && r.error == RefConflict(parent, Current(old(store.refs), key))
              && (r.error.current != Named(store.Kind(), parent)
                  || store.git(old(store.refs), Update(key, parent, write(parent), attempt)) == Refuses)
  {
    BranchNamesAndRefNames(branch);
    if !ValidBranchName(branch) {
      return Err(InvalidBranchName);
    }
    if parent.Some? && !isPresent(parent.value) {
      return Err(ParentNotFound);
    }
    var commit := write(parent);
    if !ValidRefName(BranchRef(branch)) {
      return Err(InvalidRefName);
    }
    if !ValidOid(commit) {
      return Err(InvalidSha);
    }
    var outcome := store.CasUpdate(repo, BranchRef(branch), parent, commit, attempt);
    match outcome {
      case Updated => return Ok(commit);
      case Conflict(current) => return Err(RefConflict(parent, current));
      case Failed(message) => return Err(StoreError(message));
    }
  }

  // ── the endpoints at work ────────────────────────────────────────────

  /** A graph of roots and one commit of two of them. */
  function OneMerge(s: Oid, t: Oid, commit: Oid): Git {
    Git((a: Oid, b: Oid) => a == b || (b == commit && (a == s || a == t)),
        (x: Oid, y: Oid) => Some(x),
        (tree: Oid, x: Oid, y: Oid) => commit)
  }

  ghost function OneMergeParents(s: Oid, t: Oid, commit: Oid): Parents {
    c => if c == commit then {t, s} else {}
  }

  lemma OneMergeIsFaithful(s: Oid, t: Oid, commit: Oid)
    requires commit != s && commit != t
    ensures Faithful(OneMerge(s, t, commit), OneMergeParents(s, t, commit))
    ensures CommitsBoth(OneMerge(s, t, commit), OneMergeParents(s, t, commit), t, s)
  {
    var git, parents := OneMerge(s, t, commit), OneMergeParents(s, t, commit);
    forall a, b ensures git.isAncestor(a, b) <==> Ancestor(parents, a, b) {
      ReachesSelf(parents, a);
      if b == commit && (a == s || a == t) {
        ReachesLink(parents, b, a);
      }
      if Ancestor(parents, a, b) && a != b {
        ReachesUnfold(parents, b, a);
        var m :| m in parents(b) && Reaches(parents, m, a);
        if m != a {
          ReachesUnfold(parents, m, a);
        }
      }
    }
  }

  /** Two branches with unrelated tips: the merge succeeds with a commit of both. */
  method MergeUnrelated(store: FsRefStore, repo: RepoId, source: string, target: string, s: Oid, t: Oid, commit: Oid, attempt: nat)
    returns (r: Result<MergeResult, Error>)
    requires ValidBranchName(source) && ValidBranchName(target) && source != target && ValidRefName(BranchRef(target))
    requires ValidOid(s) && ValidOid(t) && ValidOid(commit) && s != t && commit != s && commit != t && t != ZERO
    requires Current(store.refs, (repo, BranchRef(source))) == Some(s) && Current(store.refs, (repo, BranchRef(target))) == Some(t)
    requires store.git(store.refs, Update((repo, BranchRef(target)), Some(t), commit, attempt)) == Obeys
    modifies store
    ensures r == Ok(MergeResult(commit, false, s))
    ensures store.refs == old(store.refs)[(repo, BranchRef(target)) := commit]
  {
    OneMergeIsFaithful(s, t, commit);
    r := MergeBranches(store, repo, source, target, Auto, OneMerge(s, t, commit), attempt, OneMergeParents(s, t, commit));
  }

  /** The first commit of a branch. */
  method CommitFirst(store: FsRefStore, repo: RepoId, branch: string, commit: Oid, attempt: nat) returns (r: Result<Oid, Error>)
    requires ValidBranchName(branch) && !OptionLike(branch) && ValidOid(commit)
    requires Current(store.refs, (repo, BranchRef(branch))).None?
    requires store.git(store.refs, Update((repo, BranchRef(branch)), None, commit, attempt)) == Obeys
    modifies store
    ensures r == Ok(commit) && store.refs == old(store.refs)[(repo, BranchRef(branch)) := commit]
  {
    r := CreateCommit(store, repo, branch, None, (o: Oid) => false, (p: Option<Oid>) => commit, attempt, (o: Oid) => {});
  }

  const OID_A := "aaaaaaaaaaaaaaaaaaaaaaaaaaaaaaaaaaaaaaaa"
  const OID_B := "bbbbbbbbbbbbbbbbbbbbbbbbbbbbbbbbbbbbbbbb"
  const OID_C := "cccccccccccccccccccccccccccccccccccccccc"

  lemma SampleOids()
    ensures ValidOid(OID_A) && ValidOid(OID_B) && ValidOid(OID_C)
    ensures OID_A != OID_B && OID_A != OID_C && OID_B != OID_C && OID_A != ZERO && OID_B != ZERO
  {
    assert OID_A[0] == 'a' && OID_B[0] == 'b' && OID_C[0] == 'c' && ZERO[0] == '0';
  }

  lemma OneLetterName(c: char)
    requires 'a' <= c <= 'z'
    ensures ValidBranchName([c]) && !OptionLike([c]) && ValidRefName(BranchRef([c]))
  {
    var name := [c];
    assert name[1..] == "" && Split(name[1..]) == [""] && [""][1..] == [];
    assert [c] + "" == name && Split(name) == [name];
    assert !EndsWith(name, ".lock") && name[|name| - 1..] == name;
    BranchNamesAndRefNames(name);
  }

  lemma SampleNames()
    ensures ValidBranchName("x") && !OptionLike("x") && ValidRefName(BranchRef("x"))
    ensures ValidBranchName("y") && !OptionLike("y") && ValidRefName(BranchRef("y"))
    ensures BranchRef("x") != BranchRef("y")
  {
    hide ValidBranchName, ValidRefName, OptionLike;
    OneLetterName('x');
    OneLetterName('y');
    assert BranchRef("x")[|HEADS|] == 'x' && BranchRef("y")[|HEADS|] == 'y';
  }

  lemma SampleRefs()
    ensures BranchRef("x") == "refs/heads/x" && BranchRef("y") == "refs/heads/y"
  {
  }

  /** From an empty repository: a commit on each of two branches, and a merge of one into the other. */
  method MergeFromScratch(repo: RepoId) returns (r: Result<MergeResult, Error>, store: FsRefStore)
    ensures r == Ok(MergeResult(OID_C, false, OID_A))
    ensures store.refs == map[(repo, "refs/heads/x") := OID_A, (repo, "refs/heads/y") := OID_C]
  {
    hide ValidOid, ValidBranchName, ValidRefName, OptionLike, BranchRef;
    SampleOids();
    SampleNames();
    store := new FsRefStore((refs: Refs, c: Cas) => Obeys);
    var first := CommitFirst(store, repo, "x", OID_A, 0);
    var second := CommitFirst(store, repo, "y", OID_B, 1);
    assert BranchRef("x") == "refs/heads/x" && BranchRef("y") == "refs/heads/y" by {
      SampleRefs();
    }
    r := MergeUnrelated(store, repo, "x", "y", OID_A, OID_B, OID_C, 2);
  }
}
